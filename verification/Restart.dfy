/** When a command leaves a daemon's net valid, and what comes of one that does not. */
module Restart {
  import opened Wrappers
  import opened Proto
  import opened Network
  import opened Commands
  import opened World
  import opened Invariant
  import opened Preservation
  import opened Edges

  // -- one command -------------------------------------------------------------------------------

  /** Taking up an invite leaves a valid net exactly if what the caller sent decodes, and it
      arrived on an address of ours. */
  lemma PairingValidIff(ok: Id -> bool, net: Network, caller: Id, on: string, hello: Hello)
    requires Valid(ok, net) && Sound(net) && Recognise(net, caller, hello).Pairs?
    ensures Valid(ok, Greeted(net, caller, on, hello)) <==>
            ok(caller) && AllDecode(ok, hello.addresses) && NamesHandshakeKey(net.handshakeKeys, on)
  {
    GreetingTouchesOneEntry(net, caller, on, hello);
    var i := Recognise(net, caller, hello).index;
    var net' := Greeted(net, caller, on, hello);
    assert net'.peers[i].peer == Some(caller) && net'.peers[i].addresses == hello.addresses;
    assert net'.peers[i].reachedOn == Some(on);
    if ok(caller) && AllDecode(ok, hello.addresses) && NamesHandshakeKey(net.handshakeKeys, on) {
      assert PeerValid(ok, net.handshakeKeys, net.peers[i]);
      assert PeerValid(ok, net.handshakeKeys, net'.peers[i]);
    } else {
      assert !PeerValid(ok, net.handshakeKeys, net'.peers[i]);
    }
  }

  /** An enrolment leaves a valid net exactly if the device's key decodes. */
  lemma EnrolmentValidIff(ok: Id -> bool, net: Network, caller: Id, on: string, hello: Hello)
    requires Valid(ok, net) && Sound(net) && Recognise(net, caller, hello).Enrols?
    ensures Valid(ok, Greeted(net, caller, on, hello)) <==> ok(caller)
  {
    GreetingTouchesOneEntry(net, caller, on, hello);
    var i := Recognise(net, caller, hello).index;
    var net' := Greeted(net, caller, on, hello);
    assert net'.devices[i].keys == [caller];
    if ok(caller) {
      assert DeviceValid(ok, net'.devices[i]);
    } else {
      assert !DeviceValid(ok, net'.devices[i]) by {
        assert net'.devices[i].keys[0] == caller;
      }
    }
  }

  /** A known caller leaves a valid net valid exactly if it arrived on an address of ours, so
      saving that unchecked is safe. */
  lemma KnownGreetingValidIff(ok: Id -> bool, net: Network, caller: Id, on: string, hello: Hello)
    requires Valid(ok, net) && Sound(net) && Recognise(net, caller, hello).Known?
    ensures Valid(ok, Greeted(net, caller, on, hello)) <==> NamesHandshakeKey(net.handshakeKeys, on)
  {
    GreetingTouchesOneEntry(net, caller, on, hello);
    var net' := Greeted(net, caller, on, hello);
    var i := PeerByAlias(net, net.peers[Recognise(net, caller, hello).index].alias).value;
    assert net'.peers[i].reachedOn == Some(on);
    if NamesHandshakeKey(net.handshakeKeys, on) {
      forall j | 0 <= j < |net'.peers| ensures PeerValid(ok, net.handshakeKeys, net'.peers[j]) {
        assert PeerValid(ok, net.handshakeKeys, net.peers[j]);
      }
      assert forall j :: 0 <= j < |net.peers| ==>
               net'.peers[j].alias == net.peers[j].alias && net'.peers[j].mine == net.peers[j].mine;
    } else {
      assert !PeerValid(ok, net.handshakeKeys, net'.peers[i]);
    }
  }

  /** An entry that can be added without spoiling the net. */
  ghost predicate Addable(ok: Id -> bool, net: Network, e: Peer) {
    && PeerByAlias(net, e.alias).None? && Unrecorded(net, e.mine)
    && PeerValid(ok, net.handshakeKeys, e)
  }

  lemma PeerAddedValidIff(ok: Id -> bool, net: Network, e: Peer)
    requires Valid(ok, net)
    ensures Valid(ok, net.(peers := net.peers + [e])) <==> Addable(ok, net, e)
  {
    var peers := net.peers + [e];
    assert peers[|net.peers|] == e;
    if Addable(ok, net, e) {
      forall i | 0 <= i < |peers| ensures PeerValid(ok, net.handshakeKeys, peers[i]) {
      }
    } else if !PeerValid(ok, net.handshakeKeys, e) {
      assert !PeerValid(ok, net.handshakeKeys, peers[|net.peers|]);
    } else if PeerByAlias(net, e.alias).Some? {
      var j := PeerByAlias(net, e.alias).value;
      assert j < |net.peers| && peers[j].alias == peers[|net.peers|].alias;
    } else {
      var j :| 0 <= j < |net.peers| && net.peers[j].mine == e.mine;
      assert peers[j].mine == peers[|net.peers|].mine;
    }
  }

  lemma DeviceAddedValidIff(ok: Id -> bool, net: Network, name: string, key: Id)
    requires Valid(ok, net) && DeviceByName(net, name).None?
    ensures Valid(ok, net.(devices := net.devices + [Device(name, [], Some(key))])) <==> ok(key)
  {
    var devices := net.devices + [Device(name, [], Some(key))];
    assert DeviceValid(ok, devices[|net.devices|]) <==> ok(key);
  }

  lemma KeyAddedValidIff(ok: Id -> bool, net: Network, k: HandshakeKey)
    requires Valid(ok, net)
    ensures Valid(ok, net.(handshakeKeys := net.handshakeKeys + [k])) <==> ok(k.key)
  {
    var keys := net.handshakeKeys + [k];
    assert keys[|net.handshakeKeys|] == k;
    forall i | 0 <= i < |net.peers| ensures PeerValid(ok, keys, net.peers[i]) {
      assert PeerValid(ok, net.handshakeKeys, net.peers[i]);
      if net.peers[i].reachedOn.Some? {
        var j :| 0 <= j < |net.handshakeKeys| && net.handshakeKeys[j].alias == net.peers[i].reachedOn.value;
        assert keys[j] == net.handshakeKeys[j];
      }
    }
  }

  /** What a command needs from outside to leave a valid net valid, unless it is turned away:
      minted keys and the keys and addresses it is given decode, an identity is new, an alias
      still free when it commits, and a caller arrived on an address of ours. */
  ghost predicate Acceptable(ok: Id -> bool, net: Network, cmd: Command) {
    TurnedAway(net, cmd) ||
    match cmd
    case NewAddress(_, key) => ok(key)
    case MakeInvite(_, key, _) => ok(key) && Unrecorded(net, key)
    case MakeDeviceInvite(_, key, _) => ok(key)
    case BeginAccept(_, _, _, _) => true
    case CommitAccept(alias, invite, mine, addresses, _) =>
      && PeerByAlias(net, alias).None? && Unrecorded(net, mine)
      && ok(mine) && ok(invite.identity) && AllDecode(ok, addresses)
    case Greet(caller, on, hello) =>
      match Recognise(net, caller, hello)
      case Known(_) => NamesHandshakeKey(net.handshakeKeys, on)
      case Enrols(_) => ok(caller)
      case Pairs(_) => ok(caller) && AllDecode(ok, hello.addresses) && NamesHandshakeKey(net.handshakeKeys, on)
      case Stranger => true
  }

  /** Exactly when a command leaves a valid net valid, whether or not it is checked. */
  lemma CommandValidIff(ok: Id -> bool, net: Network, cmd: Command, saves: bool)
    requires Valid(ok, net) && Sound(net)
    ensures Valid(ok, Execute(ok, net, cmd, saves).net) <==> Acceptable(ok, net, cmd)
  {
    NetOf(ok, net, cmd, saves);
    NextNetValidIff(ok, net, cmd);
  }

  lemma NextNetValidIff(ok: Id -> bool, net: Network, cmd: Command)
    requires Valid(ok, net) && Sound(net)
    ensures Valid(ok, NextNet(net, cmd)) <==> Acceptable(ok, net, cmd)
  {
    if !TurnedAway(net, cmd) {
      match cmd
      case NewAddress(alias, key) => KeyAddedValidIff(ok, net, HandshakeKey(alias, key, false));
      case MakeInvite(alias, key, _) => PeerAddedValidIff(ok, net, Peer(alias, None, key, [], [], [], None));
      case MakeDeviceInvite(name, key, _) => DeviceAddedValidIff(ok, net, name, key);
      case BeginAccept(_, _, _, _) =>
      case CommitAccept(alias, invite, mine, addresses, dns) =>
        PeerAddedValidIff(ok, net, Peer(alias, Some(invite.identity), mine, addresses, dns, invite.hints, None));
      case Greet(caller, on, hello) => GreetedValidIff(ok, net, caller, on, hello);
    }
  }

  lemma GreetedValidIff(ok: Id -> bool, net: Network, caller: Id, on: string, hello: Hello)
    requires Valid(ok, net) && Sound(net) && !Recognise(net, caller, hello).Stranger?
    ensures Valid(ok, Greeted(net, caller, on, hello)) <==> Acceptable(ok, net, Greet(caller, on, hello))
  {
    match Recognise(net, caller, hello)
    case Known(_) => KnownGreetingValidIff(ok, net, caller, on, hello);
    case Enrols(_) => EnrolmentValidIff(ok, net, caller, on, hello);
    case Pairs(_) => PairingValidIff(ok, net, caller, on, hello);
  }

  /** Why the conditions matter. A caller whose addresses do not decode is refused, but the
      refusal leaves it recorded in memory. Whatever it says next it is known, welcomed, and
      the net is written without a check: the daemon is left with a file it cannot start
      from. */
  lemma RefusedPairingIsWrittenLater(ok: Id -> bool, s: State, caller: Id, on: string, hello: Hello,
                                     again: string, next: Hello)
    requires Valid(ok, s.net) && Sound(s.net) && Recognise(s.net, caller, hello).Pairs?
    requires !AllDecode(ok, hello.addresses)
    ensures
      var first := Execute(ok, s.net, Greet(caller, on, hello), true);
      var second := Execute(ok, first.net, Greet(caller, again, next), true);
      && first.reply.Refused? && first.writes == []
      && second.reply.Welcomed?
      && !Starts(ok, ApplyAll(s.store, second.writes))
  {
    PairingValidIff(ok, s.net, caller, on, hello);
    BadPairing(ok, s.net, caller, on, hello);
    BadEntryIsWritten(ok, s, Greeted(s.net, caller, on, hello), caller, again, next);
  }

  /** An entry that holds the key has an address that does not decode. */
  ghost predicate BadEntry(ok: Id -> bool, net: Network, key: Id) {
    exists i :: 0 <= i < |net.peers| && net.peers[i].peer == Some(key) && !AllDecode(ok, net.peers[i].addresses)
  }

  lemma BadPairing(ok: Id -> bool, net: Network, caller: Id, on: string, hello: Hello)
    requires Sound(net) && Recognise(net, caller, hello).Pairs? && !AllDecode(ok, hello.addresses)
    ensures BadEntry(ok, Greeted(net, caller, on, hello), caller) && Sound(Greeted(net, caller, on, hello))
  {
    GreetingTouchesOneEntry(net, caller, on, hello);
    GreetingGrows(net, caller, on, hello);
    var i := Recognise(net, caller, hello).index;
    assert Greeted(net, caller, on, hello).peers[i].peer == Some(caller);
  }

  lemma BadEntryStaysBad(ok: Id -> bool, net: Network, caller: Id, on: string, hello: Hello)
    requires Sound(net) && BadEntry(ok, net, caller)
    ensures Recognise(net, caller, hello).Known? && !Valid(ok, Greeted(net, caller, on, hello))
  {
    var i :| 0 <= i < |net.peers| && net.peers[i].peer == Some(caller) && !AllDecode(ok, net.peers[i].addresses);
    assert PeerByKey(net, caller).Some?;
    GreetingTouchesOneEntry(net, caller, on, hello);
    var net' := Greeted(net, caller, on, hello);
    assert net'.peers[i].addresses == net.peers[i].addresses;
    assert !PeerValid(ok, net'.handshakeKeys, net'.peers[i]);
  }

  lemma BadEntryIsWritten(ok: Id -> bool, s: State, net: Network, caller: Id, on: string, hello: Hello)
    requires Sound(net) && BadEntry(ok, net, caller)
    ensures
      var o := Execute(ok, net, Greet(caller, on, hello), true);
      o.reply.Welcomed? && !Starts(ok, ApplyAll(s.store, o.writes))
  {
    BadEntryStaysBad(ok, net, caller, on, hello);
    KnownIsWelcomed(ok, net, caller, on, hello);
    var net' := Greeted(net, caller, on, hello);
    assert SaveWrites(net', true)[..3] == SaveWrites(net', true);
    StoppedSave(s.store, net', true, 3);
  }

  /** An accept whose alias was claimed while it was in flight is refused, and its entry left
      in memory too: the next new address writes it out unchecked. */
  lemma RefusedCommitIsWrittenLater(ok: Id -> bool, s: State, commit: Command, alias: string, key: Id)
    requires Valid(ok, s.net) && commit.CommitAccept? && PeerByAlias(s.net, commit.alias).Some?
    requires HandshakeByAlias(s.net, alias).None?
    ensures
      var first := Execute(ok, s.net, commit, true);
      var second := Execute(ok, first.net, NewAddress(alias, key), true);
      && first.reply.Refused? && first.writes == []
      && second.reply.Created?
      && !Starts(ok, ApplyAll(s.store, second.writes))
  {
    var e := Peer(commit.alias, Some(commit.invite.identity), commit.mine, commit.addresses, commit.dns,
                  commit.invite.hints, None);
    PeerAddedValidIff(ok, s.net, e);
    var net1 := NextNet(s.net, commit);
    var net2 := NextNet(net1, NewAddress(alias, key));
    var j := PeerByAlias(s.net, commit.alias).value;
    assert net2.peers[j].alias == net2.peers[|s.net.peers|].alias;
    assert !PeersValid(ok, net2.handshakeKeys, net2.peers);
    NewAddressWrites(ok, s.store, net1, alias, key);
  }

  lemma NewAddressWrites(ok: Id -> bool, store: Store, net: Network, alias: string, key: Id)
    requires HandshakeByAlias(net, alias).None?
    ensures ApplyAll(store, Execute(ok, net, NewAddress(alias, key), true).writes).file
            == NextNet(net, NewAddress(alias, key))
  {
    var cmd := NewAddress(alias, key);
    var o := Execute(ok, net, cmd, true);
    CrashPoints(ok, net, cmd, true, store, |o.writes|);
    assert o.writes[..|o.writes|] == o.writes;
  }

  /** Nothing stops an outsider's identity from being accepted twice: two invites that share one
      pass the check under two aliases, and looking the identity up finds the first. */
  lemma OneIdentityTwice(ok: Id -> bool, net: Network, first: Command, second: Command)
    requires Valid(ok, net) && first.CommitAccept? && second.CommitAccept?
    requires Acceptable(ok, net, first) && Acceptable(ok, net, second)
    requires first.invite.identity == second.invite.identity
    requires first.alias != second.alias && first.mine != second.mine
    requires PeerByKey(net, first.invite.identity).None?
    ensures
      var one := Execute(ok, net, first, true);
      var two := Execute(ok, one.net, second, true);
      && one.reply.Accepted? && two.reply.Accepted? && Valid(ok, two.net)
      && |two.net.peers| == |net.peers| + 2
      && two.net.peers[|net.peers|].peer == Some(first.invite.identity) == two.net.peers[|net.peers| + 1].peer
      && PeerByKey(two.net, first.invite.identity) == Some(|net.peers|)
  {
    var e := EntryOf(first);
    var f := EntryOf(second);
    PeerAddedValidIff(ok, net, e);
    var net1 := NextNet(net, first);
    assert net1 == net.(peers := net.peers + [e]);
    assert PeerByAlias(net1, second.alias).None? && Unrecorded(net1, second.mine);
    PeerAddedValidIff(ok, net1, f);
    var net2 := NextNet(net1, second);
    assert net2.peers == net.peers + [e] + [f];
    FirstOfTwo(net, net2, e, f);
  }

  lemma FirstOfTwo(net: Network, net': Network, e: Peer, f: Peer)
    requires net'.peers == net.peers + [e] + [f] && e.peer.Some? && PeerByKey(net, e.peer.value).None?
    ensures PeerByKey(net', e.peer.value) == Some(|net.peers|)
  {
    assert net'.peers[|net.peers|] == e;
    assert forall j :: 0 <= j < |net.peers| ==> net'.peers[j] == net.peers[j];
  }

  /** The entry an accept commits. */
  function EntryOf(commit: Command): Peer
    requires commit.CommitAccept?
  {
    Peer(commit.alias, Some(commit.invite.identity), commit.mine, commit.addresses, commit.dns,
         commit.invite.hints, None)
  }

  // -- runs ------------------------------------------------------------------------------------------

  /** What outsiders send decodes, and no alias is claimed while an accept for it is in
      flight. What daemons send each other needs no such promise. */
  ghost predicate Polite(ok: Id -> bool, w: World, step: Step) {
    (step.Run? || step.CrashDuring?) && step.n < |w.nodes| ==>
      match step.cmd
      case Greet(caller, _, hello) =>
        (caller !in w.roles || w.roles[caller].Outside?) && hello.Invited? ==> AllDecode(ok, hello.addresses)
      case CommitAccept(alias, invite, _, addresses, _) =>
        && PeerByAlias(w.nodes[step.n].s.net, alias).None?
        && (invite !in w.invites ==> ok(invite.identity) && AllDecode(ok, addresses))
      case _ => true
  }

  ghost predicate ValidInv(ok: Id -> bool, w: World) {
    forall n :: 0 <= n < |w.nodes| ==> Valid(ok, w.nodes[n].s.net) && Valid(ok, w.nodes[n].s.store.file)
  }

  lemma AddressesDecode(ok: Id -> bool, w: World, n: nat, ids: seq<Id>)
    requires RolesOk(ok, w) && AddressesOf(w.roles, n, ids)
    ensures AllDecode(ok, ids)
  {
  }

  lemma PoliteCommitIsAcceptable(ok: Id -> bool, w: World, n: nat, cmd: Command)
    requires Inv(ok, w) && n < |w.nodes| && cmd.CommitAccept? && Permitted(ok, w, n, cmd)
    requires PeerByAlias(w.nodes[n].s.net, cmd.alias).None?
    requires cmd.invite !in w.invites ==> ok(cmd.invite.identity) && AllDecode(ok, cmd.addresses)
    ensures Acceptable(ok, w.nodes[n].s.net, cmd)
  {
    assert FlightOk(w, cmd.mine, w.flights[cmd.mine]);
    if cmd.invite in w.invites {
      var theirs :| (cmd.mine, Ok(theirs, cmd.addresses, cmd.dns)) in w.replies;
      var r := (cmd.mine, Ok(theirs, cmd.addresses, cmd.dns));
      assert ReplyOk(w, r.0, r.1);
      AddressesDecode(ok, w, w.roles[cmd.invite.identity].node, cmd.addresses);
    }
  }

  lemma BoundAliasIsNamed(ok: Id -> bool, w: World, n: nat, cmd: Command)
    requires Inv(ok, w) && n < |w.nodes| && cmd.Greet? && Permitted(ok, w, n, cmd)
    ensures NamesHandshakeKey(w.nodes[n].s.net.handshakeKeys, cmd.on)
  {
    var s := w.nodes[n].s;
    assert StateOk(w.roles, w.answered, n, s);
    var e :| e in s.bound && e.alias == cmd.on;
    var keys := s.net.handshakeKeys;
    var i :| 0 <= i < |keys| && keys[i].alias == e.alias && keys[i].key == e.key;
  }

  lemma PoliteGreetIsAcceptable(ok: Id -> bool, w: World, n: nat, cmd: Command)
    requires Inv(ok, w) && n < |w.nodes| && cmd.Greet? && Permitted(ok, w, n, cmd)
    requires (cmd.caller !in w.roles || w.roles[cmd.caller].Outside?) && cmd.hello.Invited? ==>
               AllDecode(ok, cmd.hello.addresses)
    ensures Acceptable(ok, w.nodes[n].s.net, cmd)
  {
    BoundAliasIsNamed(ok, w, n, cmd);
    HellosAreHonest(ok, w, n, cmd);
    if cmd.caller in w.roles && !w.roles[cmd.caller].Outside? && cmd.hello.Invited? {
      AddressesDecode(ok, w, w.roles[cmd.caller].node, cmd.hello.addresses);
    }
  }

  lemma PoliteIsAcceptable(ok: Id -> bool, w: World, w': World, step: Step)
    requires Inv(ok, w) && NextBy(ok, w, w', step) && Polite(ok, w, step) && (step.Run? || step.CrashDuring?)
    ensures Acceptable(ok, w.nodes[step.n].s.net, step.cmd)
  {
    var s := w.nodes[step.n].s;
    if step.cmd.CommitAccept? {
      PoliteCommitIsAcceptable(ok, w, step.n, step.cmd);
    } else if step.cmd.Greet? {
      PoliteGreetIsAcceptable(ok, w, step.n, step.cmd);
    } else if step.cmd.MakeInvite? {
      assert StateOk(w.roles, w.answered, step.n, s);
      forall i | 0 <= i < |s.net.peers| ensures s.net.peers[i].mine != step.cmd.key {
        assert EntryOk(w.roles, w.answered, step.n, s.net.peers[i]);
      }
    }
  }

  lemma ResultStaysValid(ok: Id -> bool, w: World, n: nat, cmd: Command, o: Outcome, store: Store)
    requires ValidInv(ok, w) && n < |w.nodes| && ReplyFits(w.nodes[n].s.net, cmd, o)
    requires Valid(ok, o.net) && (store.file == w.nodes[n].s.store.file || store.file == o.net)
    ensures ValidInv(ok, Resulting(w, n, cmd, o, store))
  {
    ResultNodes(w, n, cmd, o, store);
  }

  lemma DownStaysValid(ok: Id -> bool, w: World, roles: Roles, n: nat, net: Network, store: Store)
    requires ValidInv(ok, w) && n < |w.nodes| && Valid(ok, net)
    requires store.file == w.nodes[n].s.store.file || store.file == net
    ensures ValidInv(ok, Down(w.(roles := roles), n, store))
  {
  }

  lemma RunStaysValid(ok: Id -> bool, w: World, n: nat, cmd: Command, saves: bool)
    requires Inv(ok, w) && ValidInv(ok, w) && n < |w.nodes| && Acceptable(ok, w.nodes[n].s.net, cmd)
    ensures ValidInv(ok, Ran(ok, w, n, cmd, saves))
  {
    var s := w.nodes[n].s;
    assert StateOk(w.roles, w.answered, n, s);
    var o := Execute(ok, s.net, cmd, saves);
    CommandValidIff(ok, s.net, cmd, saves);
    RepliesFit(ok, s.net, cmd, saves);
    CrashPoints(ok, s.net, cmd, saves, s.store, |o.writes|);
    assert o.writes[..|o.writes|] == o.writes;
    ResultStaysValid(ok, w, n, cmd, o, ApplyAll(s.store, o.writes));
  }

  lemma CrashStaysValid(ok: Id -> bool, w: World, n: nat, cmd: Command, saves: bool, writes: nat)
    requires Inv(ok, w) && ValidInv(ok, w) && n < |w.nodes| && Acceptable(ok, w.nodes[n].s.net, cmd)
    requires writes <= |Execute(ok, w.nodes[n].s.net, cmd, saves).writes|
    ensures ValidInv(ok, Down(w.(roles := RolesAfter(w, n, cmd)), n,
                              Stopped(ok, w.nodes[n].s.net, cmd, saves, w.nodes[n].s.store, writes)))
  {
    var s := w.nodes[n].s;
    assert StateOk(w.roles, w.answered, n, s);
    CommandValidIff(ok, s.net, cmd, saves);
    RepliesFit(ok, s.net, cmd, saves);
    CrashPoints(ok, s.net, cmd, saves, s.store, writes);
    DownStaysValid(ok, w, RolesAfter(w, n, cmd), n, Execute(ok, s.net, cmd, saves).net,
                   Stopped(ok, s.net, cmd, saves, s.store, writes));
  }

  lemma NetsUntouched(ok: Id -> bool, w: World, w': World)
    requires ValidInv(ok, w) && |w'.nodes| == |w.nodes|
    requires forall n :: 0 <= n < |w.nodes| ==>
               w'.nodes[n].s.store == w.nodes[n].s.store
               && (w'.nodes[n].s.net == w.nodes[n].s.net || w'.nodes[n].s.net == w.nodes[n].s.store.file)
    ensures ValidInv(ok, w')
  {
  }

  /** Every other step leaves each daemon's files, and its memory or a copy of its file. */
  lemma OtherStepsTouchNoNet(ok: Id -> bool, w: World, w': World, step: Step)
    requires ValidInv(ok, w) && NextBy(ok, w, w', step) && !step.Run? && !step.CrashDuring?
    ensures ValidInv(ok, w')
  {
    NetsUntouched(ok, w, w');
  }

  lemma StepStaysValid(ok: Id -> bool, w: World, w': World, step: Step)
    requires Inv(ok, w) && ValidInv(ok, w) && NextBy(ok, w, w', step) && Polite(ok, w, step)
    ensures ValidInv(ok, w')
  {
    if step.Run? || step.CrashDuring? {
      PoliteIsAcceptable(ok, w, w', step);
      if step.Run? {
        RunStaysValid(ok, w, step.n, step.cmd, step.saves);
      } else {
        CrashStaysValid(ok, w, step.n, step.cmd, step.saves, step.writes);
      }
    } else {
      OtherStepsTouchNoNet(ok, w, w', step);
    }
  }

  ghost predicate PoliteRun(ok: Id -> bool, ws: seq<World>, steps: seq<Step>)
    requires |ws| == |steps| + 1
  {
    forall k :: 0 <= k < |steps| ==> Polite(ok, ws[k], steps[k])
  }

  lemma WorldStaysValid(ok: Id -> bool, ws: seq<World>, steps: seq<Step>, i: nat)
    requires IsRun(ok, ws, steps) && PoliteRun(ok, ws, steps) && i < |steps| && ValidInv(ok, ws[i])
    ensures ValidInv(ok, ws[i + 1])
  {
    RunsKeepInv(ok, ws, steps, i);
    StepOf(ok, ws, steps, i);
    StepStaysValid(ok, ws[i], ws[i + 1], steps[i]);
  }

  lemma InitIsValid(ok: Id -> bool, w: World)
    requires Init(ok, w)
    ensures ValidInv(ok, w)
  {
    forall n | 0 <= n < |w.nodes| ensures Valid(ok, w.nodes[n].s.net) && Valid(ok, w.nodes[n].s.store.file) {
      assert FreshHome(ok, w, n);
    }
  }

  lemma PoliteRunsStayValid(ok: Id -> bool, ws: seq<World>, steps: seq<Step>, i: nat)
    requires IsRun(ok, ws, steps) && PoliteRun(ok, ws, steps) && i < |ws|
    ensures ValidInv(ok, ws[i])
  {
    InitIsValid(ok, ws[0]);
    forall k | 0 <= k < i && ValidInv(ok, ws[k]) ensures ValidInv(ok, ws[k + 1]) {
      WorldStaysValid(ok, ws, steps, k);
    }
    Onwards(ws, w => ValidInv(ok, w), 0, i);
  }
}
