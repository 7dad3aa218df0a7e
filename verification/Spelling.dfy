/** What the text comparisons of `network.toml` say about keys, when "decodes" is what `Id52`
    says it is. */
module Spelling {
  import opened Wrappers
  import opened Proto
  import opened Network
  import opened Radix
  import Id52

  /** The texts that decode as an id52, given which 32 bytes are curve points. */
  function Decodes(curve: seq<byte> -> bool): Id -> bool {
    s => Id52.Decode(curve, s).Success?
  }

  /** No two entries have one key for an identity. */
  ghost predicate KeysDistinct(curve: seq<byte> -> bool, peers: seq<Peer>) {
    forall i, j :: 0 <= i < j < |peers| ==> Id52.Decode(curve, peers[i].mine) != Id52.Decode(curve, peers[j].mine)
  }

  /** No two identities are spellings of each other. */
  ghost predicate SpellingsDistinct(peers: seq<Peer>) {
    forall i, j :: 0 <= i < j < |peers| ==> Id52.Uppercase(peers[i].mine) != Id52.Uppercase(peers[j].mine)
  }

  /** The check makes sure that identities are distinct texts. They are distinct keys exactly if
      no two of the texts have one upper case, that is, for ASCII, differ only in case. */
  lemma IdentitiesAreKeysIff(curve: seq<byte> -> bool, net: Network)
    requires Valid(Decodes(curve), net)
    ensures KeysDistinct(curve, net.peers) <==> SpellingsDistinct(net.peers)
  {
    forall i, j | 0 <= i < j < |net.peers|
      ensures Id52.Decode(curve, net.peers[i].mine) != Id52.Decode(curve, net.peers[j].mine) <==>
              Id52.Uppercase(net.peers[i].mine) != Id52.Uppercase(net.peers[j].mine)
    {
      assert PeerValid(Decodes(curve), net.handshakeKeys, net.peers[i]);
      assert PeerValid(Decodes(curve), net.handshakeKeys, net.peers[j]);
      Id52.SameKeyIsSameUppercase(curve, net.peers[i].mine, net.peers[j].mine);
    }
  }

  /** Two entries that share one key, spelled in either case. */
  function OneKeyTwice(key: Id52.PublicKey, alias: string, other: string): Network {
    var e := Peer(alias, None, Id52.Encode(key), [], [], [], None);
    Network([], [], [e, e.(alias := other, mine := Id52.Upper(Id52.Encode(key)))], [])
  }

  /** The check lets them pass, whenever the id52 has a letter in it. */
  lemma TwoCasesPass(curve: seq<byte> -> bool, key: Id52.PublicKey, alias: string, other: string)
    requires curve(key) && alias != other && Id52.Upper(Id52.Encode(key)) != Id52.Encode(key)
    ensures
      var net := OneKeyTwice(key, alias, other);
      Valid(Decodes(curve), net) && !KeysDistinct(curve, net.peers)
  {
    Id52.EncodeThenDecode(curve, key);
    var peers := OneKeyTwice(key, alias, other).peers;
    assert Id52.Decode(curve, peers[0].mine) == Id52.Decode(curve, peers[1].mine);
  }

  ghost predicate Minted(id: Id) {
    exists key: Id52.PublicKey :: Id52.Encode(key) == id
  }

  /** Identities a daemon minted are spelled as `Id52.Encode` spells them, and so are never two
      spellings of one key. */
  lemma MintedAreDistinctKeys(curve: seq<byte> -> bool, net: Network)
    requires Valid(Decodes(curve), net)
    requires forall i :: 0 <= i < |net.peers| ==> Minted(net.peers[i].mine)
    ensures KeysDistinct(curve, net.peers)
  {
    forall i, j | 0 <= i < j < |net.peers|
      ensures Id52.Uppercase(net.peers[i].mine) != Id52.Uppercase(net.peers[j].mine)
    {
      assert Minted(net.peers[i].mine) && Minted(net.peers[j].mine);
      var a: Id52.PublicKey :| Id52.Encode(a) == net.peers[i].mine;
      var b: Id52.PublicKey :| Id52.Encode(b) == net.peers[j].mine;
      EncodedUppercase(a);
      EncodedUppercase(b);
    }
    IdentitiesAreKeysIff(curve, net);
  }

  lemma EncodedUppercase(key: Id52.PublicKey)
    ensures Id52.Lower(Id52.Uppercase(Id52.Encode(key))) == Id52.Encode(key)
  {
    Id52.UpperOfEncode(key);
    Id52.AsciiUppercase(Id52.Encode(key));
    assert Id52.Lower(Id52.Encode(key)) == Id52.Encode(key);
  }
}
