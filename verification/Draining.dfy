/** When a retired address can be unbound. */
module Draining {
  import opened Wrappers
  import opened Proto
  import opened Network
  import opened Commands

  predicate IsDrained(net: Network, k: HandshakeKey) {
    k.retired && forall i :: 0 <= i < |net.peers| ==> net.peers[i].reachedOn != Some(k.alias)
  }

  function Filter(keys: seq<HandshakeKey>, p: HandshakeKey -> bool): (kept: seq<HandshakeKey>)
    ensures forall k :: k in kept <==> k in keys && p(k)
  {
    if keys == [] then []
    else if p(keys[0]) then [keys[0]] + Filter(keys[1..], p)
    else Filter(keys[1..], p)
  }

  /** `drained()`: the keys that can be unbound. */
  function Drained(net: Network): seq<HandshakeKey> {
    Filter(net.handshakeKeys, k => IsDrained(net, k))
  }

  function WithoutDrained(net: Network): Network {
    net.(handshakeKeys := Filter(net.handshakeKeys, k => !IsDrained(net, k)))
  }

  // -- arrivals ---------------------------------------------------------------------------

  /** Someone greeting us on one of our addresses. */
  datatype Visit = Visit(caller: Id, on: string, hello: Hello)

  function After(net: Network, visits: seq<Visit>): Network {
    if visits == [] then net
    else
      var v := visits[|visits| - 1];
      NextNet(After(net, visits[..|visits| - 1]), Command.Greet(v.caller, v.on, v.hello))
  }

  /** The alias of the peer who is, or becomes, this visitor. */
  function VisitorAlias(net: Network, v: Visit): Option<string> {
    match Recognise(net, v.caller, v.hello)
    case Known(i) => Some(net.peers[i].alias)
    case Pairs(i) => Some(net.peers[i].alias)
    case Enrols(_) => None
    case Stranger => None
  }

  /** Where the peer called `alias` arrived last: its latest visit, or what the file said. */
  function LatestArrival(net: Network, visits: seq<Visit>, alias: string): Option<string> {
    if visits == [] then
      match PeerByAlias(net, alias)
      case None => None
      case Some(i) => net.peers[i].reachedOn
    else
      var before := visits[..|visits| - 1];
      var v := visits[|visits| - 1];
      if VisitorAlias(After(net, before), v) == Some(alias) then Some(v.on)
      else LatestArrival(net, before, alias)
  }

  ghost predicate AliasesDistinct(net: Network) {
    forall i, j :: 0 <= i < j < |net.peers| ==> net.peers[i].alias != net.peers[j].alias
  }

  /** The visit, whoever's it is, moves only its visitor. */
  ghost predicate Moves(net: Network, net': Network, moved: Option<string>, on: string) {
    && |net'.peers| == |net.peers|
    && forall i :: 0 <= i < |net.peers| ==>
         && net'.peers[i].alias == net.peers[i].alias
         && net'.peers[i].reachedOn == if moved == Some(net.peers[i].alias) then Some(on) else net.peers[i].reachedOn
  }

  lemma KnownMoves(net: Network, v: Visit)
    requires Sound(net) && AliasesDistinct(net) && Recognise(net, v.caller, v.hello).Known?
    ensures Moves(net, Greeted(net, v.caller, v.on, v.hello), VisitorAlias(net, v), v.on)
  {
    var i := Recognise(net, v.caller, v.hello).index;
    assert PeerByAlias(net, net.peers[i].alias) == Some(i);
  }

  lemma InvitedMoves(net: Network, v: Visit)
    requires Sound(net) && AliasesDistinct(net)
    requires Recognise(net, v.caller, v.hello).Pairs? || Recognise(net, v.caller, v.hello).Enrols?
    ensures Moves(net, Greeted(net, v.caller, v.on, v.hello), VisitorAlias(net, v), v.on)
  {
    GreetingTouchesOneEntry(net, v.caller, v.on, v.hello);
  }

  lemma VisitMoves(net: Network, v: Visit)
    requires Sound(net) && AliasesDistinct(net)
    ensures
      var net' := NextNet(net, Command.Greet(v.caller, v.on, v.hello));
      && Sound(net') && AliasesDistinct(net') && net'.handshakeKeys == net.handshakeKeys
      && Moves(net, net', VisitorAlias(net, v), v.on)
  {
    match Recognise(net, v.caller, v.hello)
    case Stranger =>
    case Known(_) =>
      GreetingGrows(net, v.caller, v.on, v.hello);
      KnownMoves(net, v);
    case Pairs(_) =>
      GreetingGrows(net, v.caller, v.on, v.hello);
      InvitedMoves(net, v);
    case Enrols(_) =>
      GreetingGrows(net, v.caller, v.on, v.hello);
      InvitedMoves(net, v);
  }

  /** After any visits, every entry says where its peer arrived last. */
  lemma {:induction false} ReachedOnIsLatest(net: Network, visits: seq<Visit>)
    requires Sound(net) && AliasesDistinct(net)
    ensures
      var net' := After(net, visits);
      && Sound(net') && AliasesDistinct(net') && net'.handshakeKeys == net.handshakeKeys
      && forall i :: 0 <= i < |net'.peers| ==>
           net'.peers[i].reachedOn == LatestArrival(net, visits, net'.peers[i].alias)
  {
    if visits == [] {
      forall i | 0 <= i < |net.peers| ensures PeerByAlias(net, net.peers[i].alias) == Some(i) {
      }
    } else {
      var before := visits[..|visits| - 1];
      ReachedOnIsLatest(net, before);
      VisitMoves(After(net, before), visits[|visits| - 1]);
    }
  }

  /** Draining agrees with history: after any visits, the drained keys are exactly the retired
      ones whose alias is no peer's latest arrival. */
  lemma DrainedAgreesWithHistory(net: Network, visits: seq<Visit>, k: HandshakeKey)
    requires Sound(net) && AliasesDistinct(net)
    ensures
      var net' := After(net, visits);
      k in Drained(net') <==>
        k in net.handshakeKeys && k.retired &&
        forall i :: 0 <= i < |net'.peers| ==> LatestArrival(net, visits, net'.peers[i].alias) != Some(k.alias)
  {
    ReachedOnIsLatest(net, visits);
  }

  // -- unbinding ---------------------------------------------------------------------------

  lemma {:induction false} AdvertisedAfterFilter(keys: seq<HandshakeKey>, p: HandshakeKey -> bool)
    requires forall k :: k in keys && !k.retired ==> p(k)
    ensures Advertised(Filter(keys, p)) == Advertised(keys)
  {
    if keys != [] {
      AdvertisedAfterFilter(keys[1..], p);
      if p(keys[0]) {
        assert ([keys[0]] + Filter(keys[1..], p))[1..] == Filter(keys[1..], p);
      }
    }
  }

  /** Removing the drained keys, all of them, is safe even when aliases repeat: a usable file
      stays usable and the addresses we hand out stay the same. */
  lemma UnbindingDrainedIsSafe(ok: Id -> bool, net: Network)
    requires Valid(ok, net)
    ensures Valid(ok, WithoutDrained(net))
    ensures CurrentAddresses(WithoutDrained(net)) == CurrentAddresses(net)
  {
    var net' := WithoutDrained(net);
    AdvertisedAfterFilter(net.handshakeKeys, k => !IsDrained(net, k));
    forall i | 0 <= i < |net'.handshakeKeys| ensures ok(net'.handshakeKeys[i].key) {
      assert net'.handshakeKeys[i] in net'.handshakeKeys;
    }
    forall i | 0 <= i < |net.peers| ensures PeerValid(ok, net'.handshakeKeys, net.peers[i]) {
      assert PeerValid(ok, net.handshakeKeys, net.peers[i]);
      if net.peers[i].reachedOn.Some? {
        var j :| 0 <= j < |net.handshakeKeys| && net.handshakeKeys[j].alias == net.peers[i].reachedOn.value;
        assert net.handshakeKeys[j] in net'.handshakeKeys;
      }
    }
  }

  /** And no more can go: a file without some key is usable exactly if each alias a peer last
      arrived on still names a key. */
  lemma RemovableIff(ok: Id -> bool, net: Network, p: HandshakeKey -> bool)
    requires Valid(ok, net)
    ensures Valid(ok, net.(handshakeKeys := Filter(net.handshakeKeys, p))) <==>
            forall i :: 0 <= i < |net.peers| && net.peers[i].reachedOn.Some? ==>
              NamesHandshakeKey(Filter(net.handshakeKeys, p), net.peers[i].reachedOn.value)
  {
    var kept := Filter(net.handshakeKeys, p);
    forall i | 0 <= i < |kept| ensures ok(kept[i].key) {
      assert kept[i] in kept;
    }
    forall i | 0 <= i < |net.peers|
      ensures PeerValid(ok, kept, net.peers[i]) <==>
              (net.peers[i].reachedOn.Some? ==> NamesHandshakeKey(kept, net.peers[i].reachedOn.value))
    {
      assert PeerValid(ok, net.handshakeKeys, net.peers[i]);
    }
  }
}
