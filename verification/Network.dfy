/** `network.toml`: the known net, the lookups over it, and the one-pass check.

    `ok` is always the predicate "this text decodes as an id52". */
module Network {
  import opened Wrappers
  import opened Proto

  datatype HandshakeKey = HandshakeKey(alias: string, key: Id, retired: bool)

  datatype Peer = Peer(
    alias: string, peer: Option<Id>, mine: Id, addresses: seq<Id>, dns: seq<string>,
    hints: seq<string>, reachedOn: Option<string>)

  datatype Device = Device(name: string, keys: seq<Id>, invite: Option<Id>)

  datatype Network = Network(
    dns: seq<string>, handshakeKeys: seq<HandshakeKey>, peers: seq<Peer>, devices: seq<Device>)

  const EMPTY := Network([], [], [], [])

  // -- lookups -----------------------------------------------------------------------

  /** The position of the first element satisfying `p`. */
  function Position<T>(xs: seq<T>, p: T -> bool): (r: Option<nat>)
    ensures r.Some? ==> r.value < |xs| && p(xs[r.value]) && forall j :: 0 <= j < r.value ==> !p(xs[j])
    ensures r.None? <==> forall j :: 0 <= j < |xs| ==> !p(xs[j])
  {
    if xs == [] then None
    else if p(xs[0]) then Some(0)
    else
      match Position(xs[1..], p)
      case None =>
        assert forall j :: 0 < j < |xs| ==> xs[j] == xs[1..][j - 1];
        None
      case Some(i) =>
        assert forall j :: 0 < j < i + 1 ==> xs[j] == xs[1..][j - 1];
        Some(i + 1)
  }

  function HandshakeByAlias(net: Network, alias: string): Option<nat> {
    Position(net.handshakeKeys, (k: HandshakeKey) => k.alias == alias)
  }

  function PeerByKey(net: Network, key: Id): Option<nat> {
    Position(net.peers, (p: Peer) => p.peer == Some(key))
  }

  function PeerByAlias(net: Network, alias: string): Option<nat> {
    Position(net.peers, (p: Peer) => p.alias == alias)
  }

  function PendingByMine(net: Network, mine: Id): Option<nat> {
    Position(net.peers, (p: Peer) => p.peer.None? && p.mine == mine)
  }

  function DeviceByName(net: Network, name: string): Option<nat> {
    Position(net.devices, (d: Device) => d.name == name)
  }

  function PendingDeviceByInvite(net: Network, invite: Id): Option<nat> {
    Position(net.devices, (d: Device) => d.keys == [] && d.invite == Some(invite))
  }

  function DeviceByKey(net: Network, key: Id): Option<nat> {
    Position(net.devices, (d: Device) => key in d.keys)
  }

  function Advertised(keys: seq<HandshakeKey>): (addresses: seq<Id>)
    ensures forall a :: a in addresses ==> exists k :: k in keys && k.key == a && !k.retired
    ensures forall k :: k in keys && !k.retired ==> k.key in addresses
  {
    if keys == [] then []
    else if keys[0].retired then Advertised(keys[1..])
    else [keys[0].key] + Advertised(keys[1..])
  }

  lemma {:induction false} AdvertisedOfConcat(a: seq<HandshakeKey>, b: seq<HandshakeKey>)
    ensures Advertised(a + b) == Advertised(a) + Advertised(b)
  {
    if a == [] {
      assert a + b == b;
    } else {
      assert (a + b)[1..] == a[1..] + b;
      AdvertisedOfConcat(a[1..], b);
    }
  }

  /** In the order of the file and each once: a key that is not retired stands in the list right
      after those that come before it and before those that come after, and so comes first, where
      the one to sign with is, when all before it are retired. */
  lemma AdvertisedInOrder(a: seq<HandshakeKey>, k: HandshakeKey, b: seq<HandshakeKey>)
    ensures Advertised(a + [k] + b) == Advertised(a) + (if k.retired then [] else [k.key]) + Advertised(b)
    ensures (forall j :: 0 <= j < |a| ==> a[j].retired) ==> Advertised(a) == []
  {
    AdvertisedOfConcat(a + [k], b);
    AdvertisedOfConcat(a, [k]);
    assert [k][1..] == [];
    assert Advertised([k]) == if k.retired then [] else [k.key];
    if forall j :: 0 <= j < |a| ==> a[j].retired {
      NoneAdvertised(a);
    }
  }

  lemma {:induction false} NoneAdvertised(keys: seq<HandshakeKey>)
    requires forall j :: 0 <= j < |keys| ==> keys[j].retired
    ensures Advertised(keys) == []
  {
    if keys != [] {
      NoneAdvertised(keys[1..]);
    }
  }

  function CurrentAddresses(net: Network): seq<Id> {
    Advertised(net.handshakeKeys)
  }

  // -- validity ------------------------------------------------------------------------

  ghost predicate AllDecode(ok: Id -> bool, ids: seq<Id>) {
    forall i :: 0 <= i < |ids| ==> ok(ids[i])
  }

  predicate NamesHandshakeKey(keys: seq<HandshakeKey>, alias: string) {
    exists i :: 0 <= i < |keys| && keys[i].alias == alias
  }

  ghost predicate PeerValid(ok: Id -> bool, keys: seq<HandshakeKey>, p: Peer) {
    && ok(p.mine)
    && (p.peer.Some? ==> ok(p.peer.value))
    && AllDecode(ok, p.addresses)
    && (p.reachedOn.Some? ==> NamesHandshakeKey(keys, p.reachedOn.value))
  }

  ghost predicate DeviceValid(ok: Id -> bool, d: Device) {
    AllDecode(ok, d.keys) && (d.invite.Some? ==> ok(d.invite.value))
  }

  ghost predicate KeysValid(ok: Id -> bool, keys: seq<HandshakeKey>) {
    forall i :: 0 <= i < |keys| ==> ok(keys[i].key)
  }

  ghost predicate PeersValid(ok: Id -> bool, keys: seq<HandshakeKey>, peers: seq<Peer>) {
    && (forall i :: 0 <= i < |peers| ==> PeerValid(ok, keys, peers[i]))
    && (forall i, j :: 0 <= i < j < |peers| ==>
          peers[i].alias != peers[j].alias && peers[i].mine != peers[j].mine)
  }

  ghost predicate DevicesValid(ok: Id -> bool, devices: seq<Device>) {
    && (forall i :: 0 <= i < |devices| ==> DeviceValid(ok, devices[i]))
    && (forall i, j :: 0 <= i < j < |devices| ==> devices[i].name != devices[j].name)
  }

  /** What a usable file is: every key decodes, nothing that must be told apart is shared,
      and every peer last arrived on an address of ours. */
  ghost predicate Valid(ok: Id -> bool, net: Network) {
    && KeysValid(ok, net.handshakeKeys)
    && PeersValid(ok, net.handshakeKeys, net.peers)
    && DevicesValid(ok, net.devices)
  }

  datatype Fault =
    | BadHandshakeKey(alias: string)
    | SharedAlias(alias: string)
    | BadMine(alias: string)
    | SharedMine(other: string, alias: string, mine: Id)
    | BadPeer(alias: string)
    | BadAddress(alias: string)
    | UnknownReachedOn(alias: string, on: string)
    | SharedName(name: string)
    | BadDeviceKey(name: string)
    | BadInvite(name: string)

  /** The fault is really in the file, at the entries it names. */
  ghost predicate Exhibits(ok: Id -> bool, net: Network, fault: Fault) {
    var ks, ps, ds := net.handshakeKeys, net.peers, net.devices;
    match fault
    case BadHandshakeKey(a) => exists i :: 0 <= i < |ks| && ks[i].alias == a && !ok(ks[i].key)
    case SharedAlias(a) => exists i, j :: 0 <= i < j < |ps| && ps[i].alias == a == ps[j].alias
    case BadMine(a) => exists i :: 0 <= i < |ps| && ps[i].alias == a && !ok(ps[i].mine)
    case SharedMine(b, a, m) =>
      exists i, j :: 0 <= i < j < |ps| && ps[i].alias == b && ps[j].alias == a && ps[i].mine == m == ps[j].mine
    case BadPeer(a) =>
      exists i :: 0 <= i < |ps| && ps[i].alias == a && ps[i].peer.Some? && !ok(ps[i].peer.value)
    case BadAddress(a) =>
      exists i :: 0 <= i < |ps| && ps[i].alias == a && !AllDecode(ok, ps[i].addresses)
    case UnknownReachedOn(a, on) =>
      exists i :: 0 <= i < |ps| && ps[i].alias == a && ps[i].reachedOn == Some(on) && !NamesHandshakeKey(ks, on)
    case SharedName(n) => exists i, j :: 0 <= i < j < |ds| && ds[i].name == n == ds[j].name
    case BadDeviceKey(n) => exists i :: 0 <= i < |ds| && ds[i].name == n && !AllDecode(ok, ds[i].keys)
    case BadInvite(n) =>
      exists i :: 0 <= i < |ds| && ds[i].name == n && ds[i].invite.Some? && !ok(ds[i].invite.value)
  }

  /** A file is usable exactly if it exhibits no fault. */
  lemma ValidIffFaultless(ok: Id -> bool, net: Network)
    ensures Valid(ok, net) <==> forall fault :: !Exhibits(ok, net, fault)
  {
    if Valid(ok, net) {
      forall fault ensures !Exhibits(ok, net, fault) {
        ValidExhibitsNone(ok, net, fault);
      }
    } else {
      var fault := FaultOf(ok, net);
      assert Exhibits(ok, net, fault);
    }
  }

  lemma ValidExhibitsNone(ok: Id -> bool, net: Network, fault: Fault)
    requires Valid(ok, net)
    ensures !Exhibits(ok, net, fault)
  {
    assert forall i :: 0 <= i < |net.peers| ==> PeerValid(ok, net.handshakeKeys, net.peers[i]);
    assert forall i :: 0 <= i < |net.devices| ==> DeviceValid(ok, net.devices[i]);
  }

  lemma FaultOf(ok: Id -> bool, net: Network) returns (fault: Fault)
    requires !Valid(ok, net)
    ensures Exhibits(ok, net, fault)
  {
    if !KeysValid(ok, net.handshakeKeys) {
      var i :| 0 <= i < |net.handshakeKeys| && !ok(net.handshakeKeys[i].key);
      fault := BadHandshakeKey(net.handshakeKeys[i].alias);
    } else if !PeersValid(ok, net.handshakeKeys, net.peers) {
      fault := PeerFaultOf(ok, net);
    } else {
      fault := DeviceFaultOf(ok, net);
    }
  }

  lemma PeerFaultOf(ok: Id -> bool, net: Network) returns (fault: Fault)
    requires !PeersValid(ok, net.handshakeKeys, net.peers)
    ensures Exhibits(ok, net, fault)
  {
    var ps := net.peers;
    if i :| 0 <= i < |ps| && !PeerValid(ok, net.handshakeKeys, ps[i]) {
      var a := ps[i].alias;
      if !ok(ps[i].mine) {
        fault := BadMine(a);
      } else if ps[i].peer.Some? && !ok(ps[i].peer.value) {
        fault := BadPeer(a);
      } else if !AllDecode(ok, ps[i].addresses) {
        fault := BadAddress(a);
      } else {
        fault := UnknownReachedOn(a, ps[i].reachedOn.value);
      }
    } else {
      var i, j :| 0 <= i < j < |ps| && (ps[i].alias == ps[j].alias || ps[i].mine == ps[j].mine);
      fault := if ps[i].alias == ps[j].alias then SharedAlias(ps[i].alias)
               else SharedMine(ps[i].alias, ps[j].alias, ps[i].mine);
    }
  }

  lemma DeviceFaultOf(ok: Id -> bool, net: Network) returns (fault: Fault)
    requires !DevicesValid(ok, net.devices)
    ensures Exhibits(ok, net, fault)
  {
    var ds := net.devices;
    if i :| 0 <= i < |ds| && !DeviceValid(ok, ds[i]) {
      fault := if AllDecode(ok, ds[i].keys) then BadInvite(ds[i].name) else BadDeviceKey(ds[i].name);
    } else {
      var i, j :| 0 <= i < j < |ds| && ds[i].name == ds[j].name;
      fault := SharedName(ds[i].name);
    }
  }

  /** One pass over the file with a set of aliases, a map from identity to alias and a set
      of names. It accepts exactly the valid files, and a refusal names a real fault. */
  method Check(ok: Id -> bool, net: Network) returns (fault: Option<Fault>)
    ensures fault.None? <==> Valid(ok, net)
    ensures fault.Some? ==> Exhibits(ok, net, fault.value)
  {
    for i := 0 to |net.handshakeKeys|
      invariant KeysValid(ok, net.handshakeKeys[..i])
    {
      if !ok(net.handshakeKeys[i].key) {
        return Some(BadHandshakeKey(net.handshakeKeys[i].alias));
      }
    }
    fault := CheckPeers(ok, net);
    if fault.None? {
      fault := CheckDevices(ok, net);
    }
  }

  method CheckPeers(ok: Id -> bool, net: Network) returns (fault: Option<Fault>)
    ensures fault.None? <==> PeersValid(ok, net.handshakeKeys, net.peers)
    ensures fault.Some? ==> Exhibits(ok, net, fault.value)
  {
    var peers := net.peers;
    var seenAlias: set<string> := {};
    var seenMine: map<Id, string> := map[];
    for i := 0 to |peers|
      invariant PeersValid(ok, net.handshakeKeys, peers[..i])
      invariant seenAlias == set j | 0 <= j < i :: peers[j].alias
      invariant forall j :: 0 <= j < i ==> peers[j].mine in seenMine
      invariant forall m :: m in seenMine ==>
                  exists j :: 0 <= j < i && peers[j].mine == m && peers[j].alias == seenMine[m]
    {
      var peer := peers[i];
      if peer.alias in seenAlias {
        return Some(SharedAlias(peer.alias));
      }
      seenAlias := seenAlias + {peer.alias};
      if !ok(peer.mine) {
        return Some(BadMine(peer.alias));
      }
      if peer.mine in seenMine {
        return Some(SharedMine(seenMine[peer.mine], peer.alias, peer.mine));
      }
      seenMine := seenMine[peer.mine := peer.alias];
      fault := CheckWhereabouts(ok, net, i);
      if fault.Some? {
        return;
      }
      assert peers[..i + 1] == peers[..i] + [peer];
    }
    assert peers[..|peers|] == peers;
    return None;
  }

  /** The part of one entry's check that looks at no other entry: whom it holds, where, and
      on which of our addresses they last arrived. */
  method CheckWhereabouts(ok: Id -> bool, net: Network, i: nat) returns (fault: Option<Fault>)
    requires i < |net.peers|
    ensures fault.None? && ok(net.peers[i].mine) ==> PeerValid(ok, net.handshakeKeys, net.peers[i])
    ensures fault.Some? ==>
              !PeerValid(ok, net.handshakeKeys, net.peers[i]) && Exhibits(ok, net, fault.value)
  {
    var peer := net.peers[i];
    if peer.peer.Some? && !ok(peer.peer.value) {
      return Some(BadPeer(peer.alias));
    }
    for j := 0 to |peer.addresses|
      invariant AllDecode(ok, peer.addresses[..j])
    {
      if !ok(peer.addresses[j]) {
        return Some(BadAddress(peer.alias));
      }
    }
    if peer.reachedOn.Some? && HandshakeByAlias(net, peer.reachedOn.value).None? {
      return Some(UnknownReachedOn(peer.alias, peer.reachedOn.value));
    }
    return None;
  }

  method CheckDevices(ok: Id -> bool, net: Network) returns (fault: Option<Fault>)
    ensures fault.None? <==> DevicesValid(ok, net.devices)
    ensures fault.Some? ==> Exhibits(ok, net, fault.value)
  {
    var devices := net.devices;
    var seenName: set<string> := {};
    for i := 0 to |devices|
      invariant DevicesValid(ok, devices[..i])
      invariant seenName == set j | 0 <= j < i :: devices[j].name
    {
      var device := devices[i];
      if device.name in seenName {
        return Some(SharedName(device.name));
      }
      seenName := seenName + {device.name};
      for j := 0 to |device.keys|
        invariant AllDecode(ok, device.keys[..j])
      {
        if !ok(device.keys[j]) {
          return Some(BadDeviceKey(device.name));
        }
      }
      if device.invite.Some? && !ok(device.invite.value) {
        return Some(BadInvite(device.name));
      }
    }
    assert devices[..|devices|] == devices;
    return None;
  }
}
