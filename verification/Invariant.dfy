/** What every reachable world satisfies, and that every step keeps it. */
module Invariant {
  import opened Wrappers
  import opened Proto
  import opened Network
  import opened Commands
  import opened World

  type Roles = map<Id, Role>

  ghost predicate Extends(roles: Roles, roles': Roles) {
    forall k :: k in roles ==> k in roles' && roles'[k] == roles[k]
  }

  /** All of these are addresses of daemon `n`. */
  ghost predicate AddressesOf(roles: Roles, n: nat, ids: seq<Id>) {
    forall i :: 0 <= i < |ids| ==> ids[i] in roles && roles[ids[i]] == Address(n)
  }

  ghost predicate Invitation(roles: Roles, id: Id) {
    id in roles && (roles[id].PeerInvite? || roles[id].DeviceInvite?)
  }

  // -- one entry ---------------------------------------------------------------------------

  /** Some addresses, all of them daemon `n`'s. */
  ghost predicate ReachableAt(roles: Roles, n: nat, ids: seq<Id>) {
    ids != [] && AddressesOf(roles, n, ids)
  }

  /** An entry made by inviting: if taken up, by an outsider's key or by the identity some
      daemon minted to accept this very invite, with that daemon's addresses. */
  ghost predicate TakenUp(roles: Roles, e: Peer)
    requires e.peer.Some?
  {
    var k := e.peer.value;
    && k in roles
    && (roles[k].Outside? ||
        (roles[k].Dialler? && roles[k].invitedTo == e.mine && ReachableAt(roles, roles[k].node, e.addresses)))
  }

  /** An entry made by accepting: the invite's identity is the counterpart. If a daemon of
      ours made the invite, that daemon has welcomed this identity, and the entry holds its
      addresses. */
  ghost predicate Completed(roles: Roles, answered: set<(Id, Id)>, e: Peer)
    requires e.mine in roles && roles[e.mine].Dialler?
  {
    var p := roles[e.mine].invitedTo;
    && e.peer == Some(p)
    && (roles[e.mine].genuine ==>
          Invitation(roles, p) && (p, e.mine) in answered && AddressesOf(roles, roles[p].node, e.addresses))
  }

  ghost predicate EntryOk(roles: Roles, answered: set<(Id, Id)>, n: nat, e: Peer) {
    && e.mine in roles
    && ((roles[e.mine] == PeerInvite(n) && (if e.peer.Some? then TakenUp(roles, e) else e.addresses == [])) ||
        (roles[e.mine].Dialler? && roles[e.mine].node == n && Completed(roles, answered, e)))
  }

  /** Made by accepting an invite that no daemon of ours made. */
  ghost predicate Forged(roles: Roles, e: Peer) {
    e.mine in roles && roles[e.mine].Dialler? && !roles[e.mine].genuine
  }

  // -- one net -------------------------------------------------------------------------------

  ghost predicate EntriesOk(roles: Roles, answered: set<(Id, Id)>, n: nat, peers: seq<Peer>) {
    forall i :: 0 <= i < |peers| ==> EntryOk(roles, answered, n, peers[i])
  }

  ghost predicate MineDistinct(peers: seq<Peer>) {
    forall i, j :: 0 <= i < j < |peers| ==> peers[i].mine != peers[j].mine
  }

  /** No two entries hold one counterpart, forged ones aside. */
  ghost predicate PeersDistinct(roles: Roles, peers: seq<Peer>) {
    forall i, j :: 0 <= i < j < |peers| && peers[i].peer.Some? && peers[i].peer == peers[j].peer ==>
      Forged(roles, peers[i]) || Forged(roles, peers[j])
  }

  ghost predicate DevicesOk(roles: Roles, n: nat, devices: seq<Device>) {
    forall i :: 0 <= i < |devices| && devices[i].invite.Some? ==>
      devices[i].invite.value in roles && roles[devices[i].invite.value] == DeviceInvite(n, devices[i].name)
  }

  ghost predicate KeysOk(roles: Roles, n: nat, keys: seq<HandshakeKey>) {
    && keys != [] && !keys[0].retired
    && forall i :: 0 <= i < |keys| ==> keys[i].key in roles && roles[keys[i].key] == Address(n)
  }

  ghost predicate Tidy(roles: Roles, answered: set<(Id, Id)>, n: nat, net: Network) {
    && Sound(net)
    && EntriesOk(roles, answered, n, net.peers)
    && MineDistinct(net.peers)
    && PeersDistinct(roles, net.peers)
    && DevicesOk(roles, n, net.devices)
    && KeysOk(roles, n, net.handshakeKeys)
  }

  /** Every key the net names as ours has its key file. */
  ghost predicate KeysHeld(net: Network, keys: set<Id>) {
    && (forall i :: 0 <= i < |net.handshakeKeys| ==> net.handshakeKeys[i].key in keys)
    && (forall i :: 0 <= i < |net.peers| ==> net.peers[i].mine in keys)
    && (forall i :: 0 <= i < |net.devices| && net.devices[i].invite.Some? ==> net.devices[i].invite.value in keys)
  }

  ghost predicate BoundOk(bound: seq<Endpoint>, keys: seq<HandshakeKey>) {
    forall e :: e in bound ==> exists i :: 0 <= i < |keys| && keys[i].alias == e.alias && keys[i].key == e.key
  }

  ghost predicate StateOk(roles: Roles, answered: set<(Id, Id)>, n: nat, s: State) {
    && Tidy(roles, answered, n, s.net) && Tidy(roles, answered, n, s.store.file)
    && Grown(s.store.file, s.net)
    && KeysHeld(s.net, s.store.keys) && KeysHeld(s.store.file, s.store.keys)
    && BoundOk(s.bound, s.net.handshakeKeys)
  }

  // -- the rest of the world --------------------------------------------------------------------

  ghost predicate RolesOk(ok: Id -> bool, w: World) {
    forall k :: k in w.roles && !w.roles[k].Outside? ==>
      && w.roles[k].node < |w.nodes| && ok(k)
      && (w.roles[k].Dialler? ==>
            && w.roles[k].invitedTo in w.roles
            && !Awaited(w.roles, w.answered, w.roles[k].node, w.roles[k].invitedTo)
            && (w.roles[k].genuine ==> Invitation(w.roles, w.roles[k].invitedTo)))
  }

  ghost predicate NodesOk(w: World) {
    forall n :: 0 <= n < |w.nodes| ==> StateOk(w.roles, w.answered, n, w.nodes[n].s)
  }

  /** Its identity is one a daemon minted for inviting, its addresses are that daemon's. */
  ghost predicate InviteFits(roles: Roles, invite: Invite) {
    Invitation(roles, invite.identity) && AddressesOf(roles, roles[invite.identity].node, invite.addresses)
  }

  ghost predicate InvitesOk(w: World) {
    forall i :: i in w.invites ==> InviteFits(w.roles, i)
  }

  ghost predicate Unrecorded(net: Network, m: Id) {
    forall i :: 0 <= i < |net.peers| ==> net.peers[i].mine != m
  }

  /** The identity is the accept's own, and its hello says what its daemon would say. */
  ghost predicate HelloOk(roles: Roles, invites: set<Invite>, m: Id, f: Flight) {
    && m in roles && roles[m] == Dialler(f.node, f.invite.identity, f.invite in invites)
    && f.hello.Invited? && f.hello.invitedTo == f.invite.identity
    && ReachableAt(roles, f.node, f.hello.addresses)
  }

  ghost predicate SentOk(w: World) {
    forall m :: m in w.sent ==> HelloOk(w.roles, w.invites, m, w.sent[m])
  }

  ghost predicate FlightOk(w: World, m: Id, f: Flight) {
    && HelloOk(w.roles, w.invites, m, f)
    && f.node < |w.nodes| && w.nodes[f.node].up
    && Unrecorded(w.nodes[f.node].s.net, m) && Unrecorded(w.nodes[f.node].s.store.file, m)
    && m in w.nodes[f.node].s.store.keys
  }

  ghost predicate FlightsOk(w: World) {
    forall m :: m in w.flights ==> FlightOk(w, m, w.flights[m])
  }

  ghost predicate ReplyOk(w: World, m: Id, welcome: Welcome) {
    && m in w.roles
    && (Genuine(w.roles, m) && welcome.Ok? ==>
          var p := w.roles[m].invitedTo;
          && (p, m) in w.answered && Invitation(w.roles, p)
          && AddressesOf(w.roles, w.roles[p].node, welcome.addresses))
  }

  ghost predicate RepliesOk(w: World) {
    forall r :: r in w.replies ==> ReplyOk(w, r.0, r.1)
  }

  ghost predicate HasEntry(net: Network, mine: Id, peer: Id) {
    exists i :: 0 <= i < |net.peers| && net.peers[i].mine == mine && net.peers[i].peer == Some(peer)
  }

  ghost predicate HasDevice(net: Network, name: string, key: Id) {
    exists i :: 0 <= i < |net.devices| && net.devices[i].name == name && net.devices[i].keys == [key]
  }

  /** The entry `net` has for identity `p` holds the key `k`. */
  ghost predicate TookUp(net: Network, role: Role, p: Id, k: Id) {
    if role.DeviceInvite? then HasDevice(net, role.name, k) else HasEntry(net, p, k)
  }

  /** The file of the daemon whose identity `p` is says that `k` took it up. */
  ghost predicate Recorded(w: World, p: Id, k: Id) {
    && p in w.roles && k in w.roles && !w.roles[p].Outside? && w.roles[p].node < |w.nodes|
    && TookUp(w.nodes[w.roles[p].node].s.store.file, w.roles[p], p, k)
  }

  ghost predicate AnsweredOk(w: World) {
    forall a :: a in w.answered ==> Recorded(w, a.0, a.1)
  }

  ghost predicate Inv(ok: Id -> bool, w: World) {
    && RolesOk(ok, w) && NodesOk(w) && InvitesOk(w) && SentOk(w) && FlightsOk(w) && RepliesOk(w) && AnsweredOk(w)
  }

  // -- keeping it: roles and history only grow ------------------------------------------------

  lemma TidyGrows(roles: Roles, roles': Roles, answered: set<(Id, Id)>, answered': set<(Id, Id)>, n: nat, net: Network)
    requires Extends(roles, roles') && answered <= answered'
    requires Tidy(roles, answered, n, net)
    ensures Tidy(roles', answered', n, net)
  {
    forall i | 0 <= i < |net.peers| ensures EntryOk(roles', answered', n, net.peers[i]) {
      assert EntryOk(roles, answered, n, net.peers[i]);
    }
    assert forall i :: 0 <= i < |net.peers| ==> net.peers[i].mine in roles;
  }

  lemma EntryStays(net: Network, net': Network, mine: Id, peer: Id)
    requires HasEntry(net, mine, peer) && Grown(net, net')
    ensures HasEntry(net', mine, peer)
  {
    var i :| 0 <= i < |net.peers| && net.peers[i].mine == mine && net.peers[i].peer == Some(peer);
    assert PeerGrown(net.peers[i], net'.peers[i]);
  }

  lemma DeviceStays(net: Network, net': Network, name: string, key: Id)
    requires HasDevice(net, name, key) && Grown(net, net')
    ensures HasDevice(net', name, key)
  {
    var i :| 0 <= i < |net.devices| && net.devices[i].name == name && net.devices[i].keys == [key];
    assert DeviceGrown(net.devices[i], net'.devices[i]);
  }

  lemma RecordedGrows(w: World, w': World, p: Id, k: Id)
    requires Recorded(w, p, k) && Extends(w.roles, w'.roles) && |w.nodes| == |w'.nodes|
    requires Grown(w.nodes[w.roles[p].node].s.store.file, w'.nodes[w.roles[p].node].s.store.file)
    ensures Recorded(w', p, k)
  {
    var file, file' := w.nodes[w.roles[p].node].s.store.file, w'.nodes[w.roles[p].node].s.store.file;
    if w.roles[p].DeviceInvite? {
      DeviceStays(file, file', w.roles[p].name, k);
    } else {
      EntryStays(file, file', p, k);
    }
  }

  lemma RolesOnlyGrow(ok: Id -> bool, w: World, n: nat, cmd: Command)
    requires n < |w.nodes| && Permitted(ok, w, n, cmd)
    ensures Extends(w.roles, RolesAfter(w, n, cmd))
  {
  }

  /** An identity is welcomed for one dialling key only. */
  lemma SpentOnce(ok: Id -> bool, w: World, p: Id, k1: Id, k2: Id)
    requires Inv(ok, w) && (p, k1) in w.answered && (p, k2) in w.answered
    ensures k1 == k2
  {
    assert Recorded(w, p, k1) && Recorded(w, p, k2) by {
      assert Recorded(w, (p, k1).0, (p, k1).1) && Recorded(w, (p, k2).0, (p, k2).1);
    }
    var s := w.nodes[w.roles[p].node].s;
    assert StateOk(w.roles, w.answered, w.roles[p].node, s);
    if w.roles[p].DeviceInvite? {
      OneKeyPerName(s.store.file, w.roles[p].name, k1, k2);
    } else {
      OneCounterpartPerIdentity(s.store.file, p, k1, k2);
    }
  }

  lemma OneCounterpartPerIdentity(net: Network, p: Id, k1: Id, k2: Id)
    requires MineDistinct(net.peers) && HasEntry(net, p, k1) && HasEntry(net, p, k2)
    ensures k1 == k2
  {
    var i :| 0 <= i < |net.peers| && net.peers[i].mine == p && net.peers[i].peer == Some(k1);
    var j :| 0 <= j < |net.peers| && net.peers[j].mine == p && net.peers[j].peer == Some(k2);
    assert i == j;
  }

  lemma OneKeyPerName(net: Network, name: string, k1: Id, k2: Id)
    requires Sound(net) && HasDevice(net, name, k1) && HasDevice(net, name, k2)
    ensures k1 == k2
  {
    var i :| 0 <= i < |net.devices| && net.devices[i].name == name && net.devices[i].keys == [k1];
    var j :| 0 <= j < |net.devices| && net.devices[j].name == name && net.devices[j].keys == [k2];
    assert i == j;
  }

  // -- keeping it: one net under one command ---------------------------------------------------

  lemma AdvertisedAddresses(roles: Roles, n: nat, keys: seq<HandshakeKey>)
    requires KeysOk(roles, n, keys)
    ensures ReachableAt(roles, n, Advertised(keys))
  {
    assert keys[0].key in Advertised(keys);
    forall i | 0 <= i < |Advertised(keys)|
      ensures Advertised(keys)[i] in roles && roles[Advertised(keys)[i]] == Address(n)
    {
      assert Advertised(keys)[i] in Advertised(keys);
      var k :| k in keys && k.key == Advertised(keys)[i] && !k.retired;
    }
  }

  /** Adding an entry under an identity no entry has. */
  lemma TidyWithPeer(roles: Roles, answered: set<(Id, Id)>, n: nat, net: Network, e: Peer)
    requires Tidy(roles, answered, n, net) && EntryOk(roles, answered, n, e) && Unrecorded(net, e.mine)
    requires e.peer.Some? || PeerByAlias(net, e.alias).None?
    requires e.peer.Some? && !Forged(roles, e) ==>
               forall i :: 0 <= i < |net.peers| && net.peers[i].peer == e.peer ==> Forged(roles, net.peers[i])
    ensures Tidy(roles, answered, n, net.(peers := net.peers + [e]))
  {
    PushGrows(net, net.(peers := net.peers + [e]));
  }

  lemma TidyWithDevice(roles: Roles, answered: set<(Id, Id)>, n: nat, net: Network, name: string, key: Id)
    requires Tidy(roles, answered, n, net) && DeviceByName(net, name).None?
    requires key in roles && roles[key] == DeviceInvite(n, name)
    ensures Tidy(roles, answered, n, net.(devices := net.devices + [Device(name, [], Some(key))]))
  {
  }

  lemma TidyWithKey(roles: Roles, answered: set<(Id, Id)>, n: nat, net: Network, alias: string, key: Id)
    requires Tidy(roles, answered, n, net)
    requires key in roles && roles[key] == Address(n)
    ensures Tidy(roles, answered, n, net.(handshakeKeys := net.handshakeKeys + [HandshakeKey(alias, key, false)]))
  {
  }

  /** The counterpart of a welcomed accept is nobody else's, forged entries aside. */
  lemma OnlyForgedShare(ok: Id -> bool, w: World, n: nat, e: Peer)
    requires Inv(ok, w) && n < |w.nodes| && EntryOk(w.roles, w.answered, n, e)
    requires w.roles[e.mine].Dialler? && !Forged(w.roles, e) && Unrecorded(w.nodes[n].s.net, e.mine)
    ensures forall i :: 0 <= i < |w.nodes[n].s.net.peers| && w.nodes[n].s.net.peers[i].peer == e.peer ==>
              Forged(w.roles, w.nodes[n].s.net.peers[i])
  {
    var net := w.nodes[n].s.net;
    assert StateOk(w.roles, w.answered, n, w.nodes[n].s);
    forall i | 0 <= i < |net.peers| && net.peers[i].peer == e.peer ensures Forged(w.roles, net.peers[i]) {
      SharesOnlyForged(ok, w, n, e, net.peers[i]);
    }
  }

  lemma SharesOnlyForged(ok: Id -> bool, w: World, n: nat, e: Peer, f: Peer)
    requires Inv(ok, w) && EntryOk(w.roles, w.answered, n, e) && EntryOk(w.roles, w.answered, n, f)
    requires w.roles[e.mine].Dialler? && !Forged(w.roles, e) && f.peer == e.peer && f.mine != e.mine
    ensures Forged(w.roles, f)
  {
    if !Forged(w.roles, f) && w.roles[f.mine].Dialler? {
      SpentOnce(ok, w, e.peer.value, f.mine, e.mine);
    }
  }

  /** The entry an accept commits is as good as any. */
  lemma CommittedEntryIsOk(ok: Id -> bool, w: World, n: nat, cmd: Command)
    requires Inv(ok, w) && n < |w.nodes| && cmd.CommitAccept? && Permitted(ok, w, n, cmd)
    ensures
      var e := Peer(cmd.alias, Some(cmd.invite.identity), cmd.mine, cmd.addresses, cmd.dns, cmd.invite.hints, None);
      && EntryOk(w.roles, w.answered, n, e) && w.roles[e.mine].Dialler? && Unrecorded(w.nodes[n].s.net, e.mine)
  {
    assert FlightOk(w, cmd.mine, w.flights[cmd.mine]);
    var theirs :| (cmd.mine, Ok(theirs, cmd.addresses, cmd.dns)) in w.replies;
    var r := (cmd.mine, Ok(theirs, cmd.addresses, cmd.dns));
    assert ReplyOk(w, r.0, r.1);
  }

  lemma CommitKeepsTidy(ok: Id -> bool, w: World, n: nat, cmd: Command, saves: bool)
    requires Inv(ok, w) && n < |w.nodes| && cmd.CommitAccept? && Permitted(ok, w, n, cmd)
    ensures Tidy(w.roles, w.answered, n, Execute(ok, w.nodes[n].s.net, cmd, saves).net)
  {
    var net := w.nodes[n].s.net;
    var e := Peer(cmd.alias, Some(cmd.invite.identity), cmd.mine, cmd.addresses, cmd.dns, cmd.invite.hints, None);
    CommittedEntryIsOk(ok, w, n, cmd);
    if !Forged(w.roles, e) {
      OnlyForgedShare(ok, w, n, e);
    }
    assert StateOk(w.roles, w.answered, n, w.nodes[n].s);
    TidyWithPeer(w.roles, w.answered, n, net, e);
    NetOf(ok, net, cmd, saves);
  }

  /** What the invariant says about a hello that reaches a daemon: a hello answering an invite
      comes from an outsider, or from the accept that minted its dialling key. */
  ghost predicate HonestHello(roles: Roles, caller: Id, hello: Hello) {
    hello.Invited? ==>
      && caller in roles
      && (roles[caller].Outside? ||
          (roles[caller].Dialler? && roles[caller].invitedTo == hello.invitedTo
           && ReachableAt(roles, roles[caller].node, hello.addresses)))
  }

  lemma HellosAreHonest(ok: Id -> bool, w: World, n: nat, cmd: Command)
    requires Inv(ok, w) && n < |w.nodes| && cmd.Greet? && Permitted(ok, w, n, cmd)
    ensures HonestHello(RolesAfter(w, n, cmd), cmd.caller, cmd.hello)
  {
    if cmd.caller in w.sent {
      assert HelloOk(w.roles, w.invites, cmd.caller, w.sent[cmd.caller]);
    }
  }

  /** Whoever dials a daemon with an identity minted to accept a daemon's invite dials the
      daemon that made it. */
  lemma AcceptingDialsItsInviter(ok: Id -> bool, w: World, m: Id, address: Id, hello: Hello)
    requires Inv(ok, w) && MayDial(w, address, m, hello) && Genuine(w.roles, m)
    requires address in w.roles && w.roles[address].Address?
    ensures Invitation(w.roles, w.roles[m].invitedTo) && w.roles[address].node == w.roles[w.roles[m].invitedTo].node
  {
    if m in w.sent && hello == w.sent[m].hello && address in w.sent[m].invite.addresses {
      assert HelloOk(w.roles, w.invites, m, w.sent[m]);
      assert InviteFits(w.roles, w.sent[m].invite);
    } else {
      AcceptedEntryDials(w, m, address);
    }
  }

  lemma AcceptedEntryDials(w: World, m: Id, address: Id)
    requires NodesOk(w) && EntryDials(w, address, m) && Genuine(w.roles, m)
    ensures Invitation(w.roles, w.roles[m].invitedTo)
    ensures address in w.roles && w.roles[address] == Address(w.roles[w.roles[m].invitedTo].node)
  {
    var a, i :| 0 <= a < |w.nodes| && 0 <= i < |w.nodes[a].s.net.peers|
      && w.nodes[a].s.net.peers[i].mine == m && address in w.nodes[a].s.net.peers[i].addresses;
    assert StateOk(w.roles, w.answered, a, w.nodes[a].s);
    assert EntryOk(w.roles, w.answered, a, w.nodes[a].s.net.peers[i]);
  }

  lemma GreetedAtOwnAddress(ok: Id -> bool, w: World, n: nat, greet: Command) returns (address: Id)
    requires Inv(ok, w) && n < |w.nodes| && greet.Greet? && Permitted(ok, w, n, greet)
    ensures MayDial(w, address, greet.caller, greet.hello)
    ensures address in w.roles && w.roles[address] == Address(n)
  {
    var s := w.nodes[n].s;
    var e :| e in s.bound && e.alias == greet.on && MayDial(w, e.key, greet.caller, greet.hello);
    assert StateOk(w.roles, w.answered, n, s);
    var a :| 0 <= a < |s.net.handshakeKeys| && s.net.handshakeKeys[a].key == e.key;
    address := e.key;
  }

  /** If `caller` was minted to accept a daemon's invite, that daemon is `n`. */
  ghost predicate AtItsInviter(roles: Roles, n: nat, caller: Id) {
    Genuine(roles, caller) ==>
      Invitation(roles, roles[caller].invitedTo) && roles[roles[caller].invitedTo].node == n
  }

  lemma GreetsItsInviter(ok: Id -> bool, w: World, n: nat, cmd: Command)
    requires Inv(ok, w) && n < |w.nodes| && cmd.Greet? && Permitted(ok, w, n, cmd)
    ensures AtItsInviter(RolesAfter(w, n, cmd), n, cmd.caller)
  {
    if Genuine(w.roles, cmd.caller) {
      var address := GreetedAtOwnAddress(ok, w, n, cmd);
      AcceptingDialsItsInviter(ok, w, cmd.caller, address, cmd.hello);
    }
  }

  lemma GreetKeepsTidy(roles: Roles, answered: set<(Id, Id)>, n: nat, net: Network,
                       caller: Id, on: string, hello: Hello)
    requires Tidy(roles, answered, n, net) && HonestHello(roles, caller, hello)
    requires !Recognise(net, caller, hello).Stranger?
    ensures Tidy(roles, answered, n, Greeted(net, caller, on, hello))
  {
    GreetingGrows(net, caller, on, hello);
    match Recognise(net, caller, hello)
    case Known(_) => WelcomeBackKeepsTidy(roles, answered, n, net, caller, on, hello);
    case Enrols(_) => EnrolKeepsTidy(roles, answered, n, net, caller, on, hello);
    case Pairs(_) => PairKeepsTidy(roles, answered, n, net, caller, on, hello);
  }

  lemma WelcomeBackKeepsTidy(roles: Roles, answered: set<(Id, Id)>, n: nat, net: Network,
                             caller: Id, on: string, hello: Hello)
    requires Tidy(roles, answered, n, net) && Recognise(net, caller, hello).Known?
    requires Sound(Greeted(net, caller, on, hello))
    ensures Tidy(roles, answered, n, Greeted(net, caller, on, hello))
  {
    var net' := Greeted(net, caller, on, hello);
    GreetingTouchesOneEntry(net, caller, on, hello);
    forall i | 0 <= i < |net'.peers| ensures EntryOk(roles, answered, n, net'.peers[i]) {
      assert EntryOk(roles, answered, n, net.peers[i]);
    }
  }

  lemma EnrolKeepsTidy(roles: Roles, answered: set<(Id, Id)>, n: nat, net: Network,
                       caller: Id, on: string, hello: Hello)
    requires Tidy(roles, answered, n, net) && Recognise(net, caller, hello).Enrols?
    requires Sound(Greeted(net, caller, on, hello))
    ensures Tidy(roles, answered, n, Greeted(net, caller, on, hello))
  {
    GreetingTouchesOneEntry(net, caller, on, hello);
  }

  lemma PairKeepsTidy(roles: Roles, answered: set<(Id, Id)>, n: nat, net: Network,
                      caller: Id, on: string, hello: Hello)
    requires Tidy(roles, answered, n, net) && HonestHello(roles, caller, hello)
    requires Recognise(net, caller, hello).Pairs? && Sound(Greeted(net, caller, on, hello))
    ensures Tidy(roles, answered, n, Greeted(net, caller, on, hello))
  {
    var j := Recognise(net, caller, hello).index;
    var net' := Greeted(net, caller, on, hello);
    GreetingTouchesOneEntry(net, caller, on, hello);
    assert EntryOk(roles, answered, n, net.peers[j]);
    assert EntryOk(roles, answered, n, net'.peers[j]);
  }

  lemma MintKeepsTidy(ok: Id -> bool, w: World, n: nat, cmd: Command, saves: bool)
    requires Inv(ok, w) && n < |w.nodes| && Permitted(ok, w, n, cmd) && Mints(cmd)
    requires Tidy(RolesAfter(w, n, cmd), w.answered, n, w.nodes[n].s.net)
    ensures Tidy(RolesAfter(w, n, cmd), w.answered, n, Execute(ok, w.nodes[n].s.net, cmd, saves).net)
  {
    var net := w.nodes[n].s.net;
    var roles' := RolesAfter(w, n, cmd);
    if cmd.NewAddress? {
      TidyWithKey(roles', w.answered, n, net, cmd.alias, cmd.key);
    } else if cmd.MakeInvite? && PeerByAlias(net, cmd.alias).None? {
      forall i | 0 <= i < |net.peers| ensures net.peers[i].mine != cmd.key {
        assert StateOk(w.roles, w.answered, n, w.nodes[n].s);
        assert EntryOk(w.roles, w.answered, n, net.peers[i]);
      }
      TidyWithPeer(roles', w.answered, n, net, Peer(cmd.alias, None, cmd.key, [], [], [], None));
    } else if cmd.MakeDeviceInvite? && DeviceByName(net, cmd.name).None? {
      TidyWithDevice(roles', w.answered, n, net, cmd.name, cmd.key);
    }
  }

  lemma CommandKeepsTidy(ok: Id -> bool, w: World, n: nat, cmd: Command, saves: bool)
    requires Inv(ok, w) && n < |w.nodes| && Permitted(ok, w, n, cmd)
    ensures Tidy(RolesAfter(w, n, cmd), w.answered, n, Execute(ok, w.nodes[n].s.net, cmd, saves).net)
  {
    var net := w.nodes[n].s.net;
    var roles' := RolesAfter(w, n, cmd);
    assert StateOk(w.roles, w.answered, n, w.nodes[n].s);
    RolesOnlyGrow(ok, w, n, cmd);
    TidyGrows(w.roles, roles', w.answered, w.answered, n, net);
    if Mints(cmd) {
      MintKeepsTidy(ok, w, n, cmd, saves);
    } else if cmd.CommitAccept? {
      CommitKeepsTidy(ok, w, n, cmd, saves);
    } else if !Recognise(net, cmd.caller, cmd.hello).Stranger? {
      HellosAreHonest(ok, w, n, cmd);
      GreetKeepsTidy(roles', w.answered, n, net, cmd.caller, cmd.on, cmd.hello);
    }
  }
}
