/** Every step keeps the invariant. */
module Preservation {
  import opened Wrappers
  import opened Proto
  import opened Network
  import opened Commands
  import opened World
  import opened Invariant

  // -- what the proofs need to know of an outcome ----------------------------------------------

  /** A reply fits its command and says only what the net said. */
  ghost predicate ReplyFits(net: Network, cmd: Command, o: Outcome) {
    match o.reply
    case Issued(invite) =>
      && (cmd.MakeInvite? || cmd.MakeDeviceInvite?)
      && invite.identity == cmd.key && invite.addresses == CurrentAddresses(net)
    case Dialling(hello) =>
      && cmd.BeginAccept? && o.net == net
      && hello.Invited? && hello.invitedTo == cmd.invite.identity && hello.addresses == CurrentAddresses(net)
    case Welcomed(welcome) =>
      && cmd.Greet? && !Recognise(net, cmd.caller, cmd.hello).Stranger?
      && welcome.Ok? && welcome.addresses == CurrentAddresses(net)
      && o.net == Greeted(net, cmd.caller, cmd.on, cmd.hello)
    case _ => true
  }

  /** The store holds the old file or the new net, and the key of anything new. */
  ghost predicate StoreFits(s: State, net: Network, ids: set<Id>, store: Store) {
    && s.store.keys <= store.keys
    && (store.file == s.store.file || store.file == net)
    && (store.file == s.store.file || ids <= store.keys)
  }

  ghost predicate Plausible(w: World, n: nat, cmd: Command, o: Outcome, store: Store) {
    && n < |w.nodes| && ReplyFits(w.nodes[n].s.net, cmd, o)
    && Brought(w.nodes[n].s.net, o.net, Brings(cmd))
    && StoreFits(w.nodes[n].s, o.net, Brings(cmd), store)
    && (o.net == w.nodes[n].s.net || Brings(cmd) <= store.keys)
    && (o.reply.Dialling? ==> cmd.key in store.keys)
    && (o.reply.Welcomed? ==> store.file == o.net)
    && Tidy(RolesAfter(w, n, cmd), w.answered, n, o.net)
  }

  lemma RepliesFit(ok: Id -> bool, net: Network, cmd: Command, saves: bool)
    ensures ReplyFits(net, cmd, Execute(ok, net, cmd, saves))
  {
  }

  lemma StopsPlausibly(ok: Id -> bool, w: World, n: nat, cmd: Command, saves: bool, writes: nat)
    requires Inv(ok, w) && n < |w.nodes| && Permitted(ok, w, n, cmd)
    requires writes <= |Execute(ok, w.nodes[n].s.net, cmd, saves).writes|
    ensures
      var s := w.nodes[n].s;
      StoreFits(s, Execute(ok, s.net, cmd, saves).net, Brings(cmd), Stopped(ok, s.net, cmd, saves, s.store, writes))
  {
    var s := w.nodes[n].s;
    CrashPoints(ok, s.net, cmd, saves, s.store, writes);
    if cmd.CommitAccept? {
      assert FlightOk(w, cmd.mine, w.flights[cmd.mine]);
    }
  }

  lemma FinishesPlausibly(ok: Id -> bool, w: World, n: nat, cmd: Command, saves: bool)
    requires Inv(ok, w) && n < |w.nodes| && Permitted(ok, w, n, cmd)
    ensures
      var s := w.nodes[n].s;
      var o := Execute(ok, s.net, cmd, saves);
      var store := ApplyAll(s.store, o.writes);
      && StoreFits(s, o.net, Brings(cmd), store)
      && (o.net == s.net || Brings(cmd) <= store.keys)
      && (o.reply.Welcomed? ==> store.file == o.net)
  {
    var s := w.nodes[n].s;
    var o := Execute(ok, s.net, cmd, saves);
    StopsPlausibly(ok, w, n, cmd, saves, |o.writes|);
    assert o.writes[..|o.writes|] == o.writes;
    FinishedWrites(ok, s.net, cmd, saves, s.store);
    BringsOnlyHeld(ok, w, n, cmd);
    NetOf(ok, s.net, cmd, saves);
  }

  /** What a commit brings into the net was minted by its accept. */
  lemma BringsOnlyHeld(ok: Id -> bool, w: World, n: nat, cmd: Command)
    requires Inv(ok, w) && n < |w.nodes| && Permitted(ok, w, n, cmd)
    ensures Mints(cmd) || Brings(cmd) <= w.nodes[n].s.store.keys
  {
    if cmd.CommitAccept? {
      assert FlightOk(w, cmd.mine, w.flights[cmd.mine]);
    }
  }

  lemma FinishedWrites(ok: Id -> bool, net: Network, cmd: Command, saves: bool, store: Store)
    ensures
      var o := Execute(ok, net, cmd, saves);
      var done := ApplyAll(store, o.writes);
      && (o.reply.Welcomed? ==> done.file == o.net)
      && (Mints(cmd) && o.net != net ==> cmd.key in done.keys)
      && store.keys <= done.keys
  {
    var o := Execute(ok, net, cmd, saves);
    CrashPoints(ok, net, cmd, saves, store, |o.writes|);
    assert o.writes[..|o.writes|] == o.writes;
  }

  lemma OutcomeIsPlausible(ok: Id -> bool, w: World, n: nat, cmd: Command, saves: bool)
    requires Inv(ok, w) && n < |w.nodes| && Permitted(ok, w, n, cmd)
    ensures
      var s := w.nodes[n].s;
      var o := Execute(ok, s.net, cmd, saves);
      Plausible(w, n, cmd, o, ApplyAll(s.store, o.writes))
  {
    var s := w.nodes[n].s;
    assert StateOk(w.roles, w.answered, n, s);
    RepliesFit(ok, s.net, cmd, saves);
    CommandBrings(ok, s.net, cmd, saves);
    CommandKeepsTidy(ok, w, n, cmd, saves);
    FinishesPlausibly(ok, w, n, cmd, saves);
    DiallingWrites(ok, s.net, cmd, saves, s.store);
  }

  lemma DiallingWrites(ok: Id -> bool, net: Network, cmd: Command, saves: bool, store: Store)
    ensures Execute(ok, net, cmd, saves).reply.Dialling? ==>
              cmd.BeginAccept? && cmd.key in ApplyAll(store, Execute(ok, net, cmd, saves).writes).keys
  {
    if Execute(ok, net, cmd, saves).reply.Dialling? {
      assert Execute(ok, net, cmd, saves).writes == [KeyFile(cmd.key)];
      assert ApplyAll(store, [KeyFile(cmd.key)]) == Apply(store, KeyFile(cmd.key));
    }
  }

  // -- the daemon a command runs on ------------------------------------------------------------

  lemma KeysStayHeld(net: Network, net': Network, ids: set<Id>, keys: set<Id>, keys': set<Id>)
    requires KeysHeld(net, keys) && keys <= keys' && Brought(net, net', ids) && ids <= keys'
    ensures KeysHeld(net', keys')
  {
    forall i | 0 <= i < |net'.peers| ensures net'.peers[i].mine in keys' {
      if i < |net.peers| {
        assert PeerGrown(net.peers[i], net'.peers[i]);
      }
    }
    forall i | 0 <= i < |net'.devices| && net'.devices[i].invite.Some? ensures net'.devices[i].invite.value in keys' {
      if i < |net.devices| {
        assert DeviceGrown(net.devices[i], net'.devices[i]);
      }
    }
    forall i | 0 <= i < |net'.handshakeKeys| ensures net'.handshakeKeys[i].key in keys' {
      if i < |net.handshakeKeys| {
        assert net'.handshakeKeys[i] == net.handshakeKeys[i];
      }
    }
  }

  lemma StaysUnrecorded(net: Network, net': Network, ids: set<Id>, m: Id)
    requires Brought(net, net', ids) && Unrecorded(net, m) && m !in ids
    ensures Unrecorded(net', m)
  {
    forall i | 0 <= i < |net'.peers| ensures net'.peers[i].mine != m {
      if i < |net.peers| {
        assert PeerGrown(net.peers[i], net'.peers[i]);
      }
    }
  }

  lemma StillBound(bound: seq<Endpoint>, keys: seq<HandshakeKey>, keys': seq<HandshakeKey>)
    requires BoundOk(bound, keys) && keys <= keys'
    ensures BoundOk(bound, keys')
  {
    forall e | e in bound ensures exists i :: 0 <= i < |keys'| && keys'[i].alias == e.alias && keys'[i].key == e.key {
      var i :| 0 <= i < |keys| && keys[i].alias == e.alias && keys[i].key == e.key;
      assert keys'[i] == keys[i];
    }
  }

  lemma GrownReflexive(net: Network)
    ensures Grown(net, net)
  {
  }

  /** The file after a command stopped anywhere is as good as the file before it. */
  lemma FileStaysOk(roles: Roles, roles': Roles, answered: set<(Id, Id)>, n: nat, s: State,
                    net': Network, ids: set<Id>, store: Store)
    requires StateOk(roles, answered, n, s) && Extends(roles, roles')
    requires Brought(s.net, net', ids) && Tidy(roles', answered, n, net') && StoreFits(s, net', ids, store)
    ensures Tidy(roles', answered, n, store.file) && KeysHeld(store.file, store.keys)
    ensures Grown(s.store.file, store.file) && Grown(store.file, net')
  {
    GrownTransitive(s.store.file, s.net, net');
    if store.file == s.store.file {
      TidyGrows(roles, roles', answered, answered, n, s.store.file);
      GrownReflexive(s.store.file);
    } else {
      KeysStayHeld(s.net, net', ids, s.store.keys, store.keys);
      GrownReflexive(net');
    }
  }

  // -- one daemon changed, the others only see roles and history grow ----------------------------

  ghost predicate Evolved(w: World, w': World, n: nat) {
    && n < |w.nodes| && |w'.nodes| == |w.nodes|
    && (forall i :: 0 <= i < |w.nodes| && i != n ==> w'.nodes[i] == w.nodes[i])
    && Extends(w.roles, w'.roles) && w.answered <= w'.answered
    && Grown(w.nodes[n].s.store.file, w'.nodes[n].s.store.file)
    && StateOk(w'.roles, w.answered, n, w'.nodes[n].s)
  }

  lemma NodesStayOk(w: World, w': World, n: nat)
    requires NodesOk(w) && Evolved(w, w', n)
    ensures NodesOk(w')
  {
    forall i | 0 <= i < |w'.nodes| ensures StateOk(w'.roles, w'.answered, i, w'.nodes[i].s) {
      var s := w'.nodes[i].s;
      if i == n {
        TidyGrows(w'.roles, w'.roles, w.answered, w'.answered, i, s.net);
        TidyGrows(w'.roles, w'.roles, w.answered, w'.answered, i, s.store.file);
      } else {
        assert StateOk(w.roles, w.answered, i, w.nodes[i].s);
        TidyGrows(w.roles, w'.roles, w.answered, w'.answered, i, s.net);
        TidyGrows(w.roles, w'.roles, w.answered, w'.answered, i, s.store.file);
      }
    }
  }

  lemma AnswersStayRecorded(w: World, w': World, n: nat)
    requires AnsweredOk(w) && Evolved(w, w', n)
    ensures forall a :: a in w.answered ==> Recorded(w', a.0, a.1)
  {
    forall a | a in w.answered ensures Recorded(w', a.0, a.1) {
      assert Recorded(w, a.0, a.1);
      GrownReflexive(w.nodes[w.roles[a.0].node].s.store.file);
      RecordedGrows(w, w', a.0, a.1);
    }
  }

  lemma InvitesStayOk(w: World, w': World)
    requires InvitesOk(w) && Extends(w.roles, w'.roles)
    ensures forall i :: i in w.invites ==> InviteFits(w'.roles, i)
  {
  }

  lemma RepliesStayOk(w: World, w': World)
    requires RepliesOk(w) && Extends(w.roles, w'.roles) && w.answered <= w'.answered
    ensures forall r :: r in w.replies ==> ReplyOk(w', r.0, r.1)
  {
    forall r | r in w.replies ensures ReplyOk(w', r.0, r.1) {
      assert ReplyOk(w, r.0, r.1);
    }
  }

  lemma RolesStayOk(ok: Id -> bool, w: World, n: nat, cmd: Command)
    requires Inv(ok, w) && n < |w.nodes| && Permitted(ok, w, n, cmd)
    ensures RolesOk(ok, w.(roles := RolesAfter(w, n, cmd)))
  {
    var roles' := RolesAfter(w, n, cmd);
    RolesOnlyGrow(ok, w, n, cmd);
    if cmd.BeginAccept? && cmd.invite in w.invites {
      assert Invitation(w.roles, cmd.invite.identity);
    }
    forall k | k in roles' && !roles'[k].Outside?
      ensures roles'[k].node < |w.nodes| && ok(k)
      ensures roles'[k].Dialler? ==>
        && roles'[k].invitedTo in roles' && !Awaited(roles', w.answered, roles'[k].node, roles'[k].invitedTo)
        && (roles'[k].genuine ==> Invitation(roles', roles'[k].invitedTo))
    {
      if k in w.roles {
        assert roles'[k] == w.roles[k];
      }
    }
  }

  // -- running a command to its end -----------------------------------------------------------------

  lemma StateStaysOk(roles: Roles, roles': Roles, answered: set<(Id, Id)>, n: nat, s: State,
                     net': Network, ids: set<Id>, store: Store)
    requires StateOk(roles, answered, n, s) && Extends(roles, roles')
    requires Brought(s.net, net', ids) && Tidy(roles', answered, n, net') && StoreFits(s, net', ids, store)
    requires net' == s.net || ids <= store.keys
    ensures StateOk(roles', answered, n, s.(net := net', store := store))
    ensures Grown(s.store.file, store.file)
  {
    FileStaysOk(roles, roles', answered, n, s, net', ids, store);
    if net' != s.net {
      KeysStayHeld(s.net, net', ids, s.store.keys, store.keys);
    }
    StillBound(s.bound, s.net.handshakeKeys, net'.handshakeKeys);
  }

  lemma RunEvolves(w: World, n: nat, cmd: Command, o: Outcome, store: Store)
    requires NodesOk(w) && Plausible(w, n, cmd, o, store) && Extends(w.roles, RolesAfter(w, n, cmd))
    ensures Evolved(w, Resulting(w, n, cmd, o, store), n)
  {
    var s := w.nodes[n].s;
    assert StateOk(w.roles, w.answered, n, s);
    StateStaysOk(w.roles, RolesAfter(w, n, cmd), w.answered, n, s, o.net, Brings(cmd), store);
    ResultNodes(w, n, cmd, o, store);
    ResultWelcomes(w, n, cmd, o, store);
    NodeEvolves(w, Resulting(w, n, cmd, o, store), n, Node(true, s.(net := o.net, store := store)));
  }

  lemma NodeEvolves(w: World, w': World, n: nat, node: Node)
    requires n < |w.nodes| && w'.nodes == w.nodes[n := node]
    requires Extends(w.roles, w'.roles) && w.answered <= w'.answered
    requires Grown(w.nodes[n].s.store.file, node.s.store.file) && StateOk(w'.roles, w.answered, n, node.s)
    ensures Evolved(w, w', n)
  {
  }

  lemma ResultNodes(w: World, n: nat, cmd: Command, o: Outcome, store: Store)
    requires n < |w.nodes| && ReplyFits(w.nodes[n].s.net, cmd, o)
    ensures Resulting(w, n, cmd, o, store).nodes
            == w.nodes[n := Node(true, w.nodes[n].s.(net := o.net, store := store))]
    ensures Resulting(w, n, cmd, o, store).roles == RolesAfter(w, n, cmd)
  {
  }

  lemma ResultWelcomes(w: World, n: nat, cmd: Command, o: Outcome, store: Store)
    requires n < |w.nodes| && ReplyFits(w.nodes[n].s.net, cmd, o)
    ensures
      var w' := Resulting(w, n, cmd, o, store);
      if o.reply.Welcomed?
      then w'.replies == w.replies + {(cmd.caller, o.reply.welcome)}
           && w'.answered == w.answered + {(AnsweredAs(w.nodes[n].s.net, cmd.caller, cmd.hello), cmd.caller)}
      else w'.replies == w.replies && w'.answered == w.answered
  {
  }

  ghost predicate NoneAwaited(roles: Roles, answered: set<(Id, Id)>) {
    forall k :: k in roles && roles[k].Dialler? ==> !Awaited(roles, answered, roles[k].node, roles[k].invitedTo)
  }

  /** The identity a welcome is given under is one of the welcoming daemon's, and its entry now
      holds the dialling key. To the key of a genuine accept it is the invite's, unless that key
      has been welcomed under the invite's before. */
  lemma WelcomeIsFounded(roles: Roles, answered: set<(Id, Id)>, n: nat, net: Network,
                         caller: Id, on: string, hello: Hello)
    requires Tidy(roles, answered, n, net) && HonestHello(roles, caller, hello)
    requires NoneAwaited(roles, answered) && AtItsInviter(roles, n, caller)
    requires !Recognise(net, caller, hello).Stranger?
    ensures
      var p := AnsweredAs(net, caller, hello);
      && p in roles && !roles[p].Outside? && roles[p].node == n
      && TookUp(Greeted(net, caller, on, hello), roles[p], p, caller)
      && (Genuine(roles, caller) ==> roles[caller].invitedTo == p || (roles[caller].invitedTo, caller) in answered)
  {
    var net' := Greeted(net, caller, on, hello);
    GreetingTouchesOneEntry(net, caller, on, hello);
    match Recognise(net, caller, hello)
    case Known(i) =>
      assert EntryOk(roles, answered, n, net.peers[i]);
      assert net'.peers[i].mine == net.peers[i].mine && net'.peers[i].peer == Some(caller);
    case Enrols(i) =>
      assert net'.devices[i].name == net.devices[i].name && net'.devices[i].keys == [caller];
    case Pairs(i) =>
      assert EntryOk(roles, answered, n, net.peers[i]);
      assert net'.peers[i].mine == hello.invitedTo && net'.peers[i].peer == Some(caller);
  }

  lemma NewWelcomeIsOk(ok: Id -> bool, w: World, n: nat, cmd: Command, o: Outcome, store: Store)
    requires NodesOk(w) && RolesOk(ok, w.(roles := RolesAfter(w, n, cmd)))
    requires Extends(w.roles, RolesAfter(w, n, cmd)) && Plausible(w, n, cmd, o, store) && o.reply.Welcomed?
    requires HonestHello(RolesAfter(w, n, cmd), cmd.caller, cmd.hello)
    requires AtItsInviter(RolesAfter(w, n, cmd), n, cmd.caller)
    ensures
      var w' := Resulting(w, n, cmd, o, store);
      && Recorded(w', AnsweredAs(w.nodes[n].s.net, cmd.caller, cmd.hello), cmd.caller)
      && ReplyOk(w', cmd.caller, o.reply.welcome)
  {
    var roles' := RolesAfter(w, n, cmd);
    var s := w.nodes[n].s;
    assert StateOk(w.roles, w.answered, n, s);
    TidyGrows(w.roles, roles', w.answered, w.answered, n, s.net);
    WelcomeIsFounded(roles', w.answered, n, s.net, cmd.caller, cmd.on, cmd.hello);
    AdvertisedAddresses(roles', n, s.net.handshakeKeys);
  }

  lemma RunKeepsAnswers(ok: Id -> bool, w: World, n: nat, cmd: Command, o: Outcome, store: Store)
    requires Inv(ok, w) && RolesOk(ok, w.(roles := RolesAfter(w, n, cmd)))
    requires Extends(w.roles, RolesAfter(w, n, cmd)) && Plausible(w, n, cmd, o, store)
    requires cmd.Greet? ==> HonestHello(RolesAfter(w, n, cmd), cmd.caller, cmd.hello)
    requires cmd.Greet? ==> AtItsInviter(RolesAfter(w, n, cmd), n, cmd.caller)
    ensures AnsweredOk(Resulting(w, n, cmd, o, store)) && RepliesOk(Resulting(w, n, cmd, o, store))
  {
    var w' := Resulting(w, n, cmd, o, store);
    RunEvolves(w, n, cmd, o, store);
    ResultWelcomes(w, n, cmd, o, store);
    AnswersStayRecorded(w, w', n);
    RepliesStayOk(w, w');
    if o.reply.Welcomed? {
      NewWelcomeIsOk(ok, w, n, cmd, o, store);
      WelcomeAdded(w', w.answered, w.replies, AnsweredAs(w.nodes[n].s.net, cmd.caller, cmd.hello), cmd.caller,
                   o.reply.welcome);
    }
  }

  lemma WelcomeAdded(w: World, answered: set<(Id, Id)>, replies: set<(Id, Welcome)>, p: Id, k: Id, welcome: Welcome)
    requires w.answered == answered + {(p, k)} && w.replies == replies + {(k, welcome)}
    requires (forall a :: a in answered ==> Recorded(w, a.0, a.1)) && Recorded(w, p, k)
    requires (forall r :: r in replies ==> ReplyOk(w, r.0, r.1)) && ReplyOk(w, k, welcome)
    ensures AnsweredOk(w) && RepliesOk(w)
  {
  }

  lemma ResultInvites(w: World, n: nat, cmd: Command, o: Outcome, store: Store)
    requires n < |w.nodes| && ReplyFits(w.nodes[n].s.net, cmd, o)
    ensures Resulting(w, n, cmd, o, store).invites
            == if o.reply.Issued? then w.invites + {o.reply.invite} else w.invites
  {
  }

  lemma NewInviteFits(w: World, n: nat, cmd: Command, o: Outcome, store: Store)
    requires NodesOk(w) && Extends(w.roles, RolesAfter(w, n, cmd)) && Plausible(w, n, cmd, o, store)
    requires o.reply.Issued?
    ensures InviteFits(RolesAfter(w, n, cmd), o.reply.invite)
  {
    assert StateOk(w.roles, w.answered, n, w.nodes[n].s);
    AdvertisedAddresses(w.roles, n, w.nodes[n].s.net.handshakeKeys);
  }

  lemma RunKeepsInvites(w: World, n: nat, cmd: Command, o: Outcome, store: Store)
    requires NodesOk(w) && InvitesOk(w)
    requires Extends(w.roles, RolesAfter(w, n, cmd)) && Plausible(w, n, cmd, o, store)
    ensures InvitesOk(Resulting(w, n, cmd, o, store))
  {
    var w' := Resulting(w, n, cmd, o, store);
    ResultNodes(w, n, cmd, o, store);
    ResultInvites(w, n, cmd, o, store);
    InvitesStayOk(w, w');
    if o.reply.Issued? {
      NewInviteFits(w, n, cmd, o, store);
    }
  }

  lemma SentStaysOk(w: World, w': World)
    requires SentOk(w) && w'.sent == w.sent && Extends(w.roles, w'.roles) && w'.invites == w.invites
    ensures SentOk(w')
  {
    forall m | m in w'.sent ensures HelloOk(w'.roles, w'.invites, m, w'.sent[m]) {
      assert HelloOk(w.roles, w.invites, m, w.sent[m]);
    }
  }

  /** A daemon makes no second invite under the identity a hello answers. */
  lemma HelloStaysOk(ok: Id -> bool, w: World, n: nat, cmd: Command, o: Outcome, store: Store, m: Id, f: Flight)
    requires RolesOk(ok, w) && HelloOk(w.roles, w.invites, m, f)
    requires Extends(w.roles, RolesAfter(w, n, cmd)) && Plausible(w, n, cmd, o, store)
    requires Mints(cmd) ==> cmd.key !in w.roles
    ensures HelloOk(RolesAfter(w, n, cmd), Resulting(w, n, cmd, o, store).invites, m, f)
  {
    assert f.invite.identity in w.roles;
    assert o.reply.Issued? ==> o.reply.invite != f.invite;
  }

  lemma NewHelloIsOk(w: World, n: nat, cmd: Command, o: Outcome, store: Store)
    requires NodesOk(w) && Extends(w.roles, RolesAfter(w, n, cmd)) && Plausible(w, n, cmd, o, store)
    requires o.reply.Dialling?
    ensures HelloOk(RolesAfter(w, n, cmd), w.invites, cmd.key, Flight(n, cmd.alias, cmd.invite, o.reply.hello))
  {
    assert StateOk(w.roles, w.answered, n, w.nodes[n].s);
    AdvertisedAddresses(w.roles, n, w.nodes[n].s.net.handshakeKeys);
  }

  lemma ResultSent(w: World, n: nat, cmd: Command, o: Outcome, store: Store)
    requires n < |w.nodes| && ReplyFits(w.nodes[n].s.net, cmd, o)
    ensures Resulting(w, n, cmd, o, store).sent ==
            if o.reply.Dialling? then w.sent[cmd.key := Flight(n, cmd.alias, cmd.invite, o.reply.hello)] else w.sent
    ensures Resulting(w, n, cmd, o, store).roles == RolesAfter(w, n, cmd)
    ensures o.reply.Dialling? ==> Resulting(w, n, cmd, o, store).invites == w.invites
  {
  }

  lemma RunKeepsSent(ok: Id -> bool, w: World, n: nat, cmd: Command, o: Outcome, store: Store)
    requires RolesOk(ok, w) && NodesOk(w) && SentOk(w)
    requires Extends(w.roles, RolesAfter(w, n, cmd)) && Plausible(w, n, cmd, o, store)
    requires Mints(cmd) ==> cmd.key !in w.roles
    ensures SentOk(Resulting(w, n, cmd, o, store))
  {
    var w' := Resulting(w, n, cmd, o, store);
    ResultSent(w, n, cmd, o, store);
    forall m | m in w'.sent ensures HelloOk(w'.roles, w'.invites, m, w'.sent[m]) {
      if o.reply.Dialling? && m == cmd.key {
        NewHelloIsOk(w, n, cmd, o, store);
      } else {
        HelloStaysOk(ok, w, n, cmd, o, store, m, w.sent[m]);
      }
    }
  }

  lemma FlightStaysOk(w: World, w': World, m: Id, f: Flight)
    requires FlightOk(w, m, f) && HelloOk(w'.roles, w'.invites, m, f) && f.node < |w'.nodes|
    requires w'.nodes[f.node].up && w.nodes[f.node].s.store.keys <= w'.nodes[f.node].s.store.keys
    requires Unrecorded(w'.nodes[f.node].s.net, m) && Unrecorded(w'.nodes[f.node].s.store.file, m)
    ensures FlightOk(w', m, f)
  {
  }

  lemma OldFlightStays(ok: Id -> bool, w: World, n: nat, cmd: Command, o: Outcome, store: Store, m: Id)
    requires RolesOk(ok, w) && FlightsOk(w) && Extends(w.roles, RolesAfter(w, n, cmd)) && Plausible(w, n, cmd, o, store)
    requires Mints(cmd) ==> cmd.key !in w.roles
    requires m in w.flights && !(cmd.CommitAccept? && cmd.mine == m)
    ensures FlightOk(Resulting(w, n, cmd, o, store), m, w.flights[m])
  {
    var w' := Resulting(w, n, cmd, o, store);
    var f := w.flights[m];
    assert FlightOk(w, m, f);
    ResultNodes(w, n, cmd, o, store);
    HelloStaysOk(ok, w, n, cmd, o, store, m, f);
    assert m !in Brings(cmd);
    if f.node == n {
      StaysUnrecorded(w.nodes[n].s.net, o.net, Brings(cmd), m);
    }
    FlightStaysOk(w, w', m, f);
  }

  lemma NewFlightIsOk(w: World, n: nat, cmd: Command, o: Outcome, store: Store)
    requires NodesOk(w) && Extends(w.roles, RolesAfter(w, n, cmd)) && Plausible(w, n, cmd, o, store)
    requires o.reply.Dialling? && cmd.key !in w.roles
    ensures FlightOk(Resulting(w, n, cmd, o, store), cmd.key, Flight(n, cmd.alias, cmd.invite, o.reply.hello))
  {
    var w' := Resulting(w, n, cmd, o, store);
    var s := w.nodes[n].s;
    assert StateOk(w.roles, w.answered, n, s);
    NewHelloIsOk(w, n, cmd, o, store);
    forall i | 0 <= i < |s.net.peers| ensures s.net.peers[i].mine != cmd.key {
      assert EntryOk(w.roles, w.answered, n, s.net.peers[i]);
    }
    forall i | 0 <= i < |s.store.file.peers| ensures s.store.file.peers[i].mine != cmd.key {
      assert EntryOk(w.roles, w.answered, n, s.store.file.peers[i]);
    }
  }

  lemma ResultFlights(w: World, n: nat, cmd: Command, o: Outcome, store: Store)
    requires n < |w.nodes| && ReplyFits(w.nodes[n].s.net, cmd, o)
    requires cmd.CommitAccept? ==> o.reply.Accepted? || o.reply.Refused?
    ensures forall m :: m in Resulting(w, n, cmd, o, store).flights && !(o.reply.Dialling? && m == cmd.key) ==>
              m in w.flights && Resulting(w, n, cmd, o, store).flights[m] == w.flights[m]
              && !(cmd.CommitAccept? && cmd.mine == m)
    ensures o.reply.Dialling? ==>
              cmd.key in Resulting(w, n, cmd, o, store).flights
              && Resulting(w, n, cmd, o, store).flights[cmd.key] == Flight(n, cmd.alias, cmd.invite, o.reply.hello)
  {
  }

  lemma RunKeepsFlights(ok: Id -> bool, w: World, n: nat, cmd: Command, o: Outcome, store: Store)
    requires RolesOk(ok, w) && NodesOk(w) && FlightsOk(w)
    requires Extends(w.roles, RolesAfter(w, n, cmd)) && Plausible(w, n, cmd, o, store)
    requires Mints(cmd) ==> cmd.key !in w.roles
    requires cmd.CommitAccept? ==> o.reply.Accepted? || o.reply.Refused?
    ensures FlightsOk(Resulting(w, n, cmd, o, store))
  {
    var w' := Resulting(w, n, cmd, o, store);
    ResultFlights(w, n, cmd, o, store);
    forall m | m in w'.flights ensures FlightOk(w', m, w'.flights[m]) {
      if o.reply.Dialling? && m == cmd.key {
        NewFlightIsOk(w, n, cmd, o, store);
      } else {
        OldFlightStays(ok, w, n, cmd, o, store, m);
      }
    }
  }

  lemma RunKeepsNodes(ok: Id -> bool, w: World, n: nat, cmd: Command, o: Outcome, store: Store)
    requires NodesOk(w) && RolesOk(ok, w.(roles := RolesAfter(w, n, cmd)))
    requires Extends(w.roles, RolesAfter(w, n, cmd)) && Plausible(w, n, cmd, o, store)
    ensures NodesOk(Resulting(w, n, cmd, o, store)) && RolesOk(ok, Resulting(w, n, cmd, o, store))
  {
    var w' := Resulting(w, n, cmd, o, store);
    RunEvolves(w, n, cmd, o, store);
    NodesStayOk(w, w', n);
    ResultNodes(w, n, cmd, o, store);
    ResultWelcomes(w, n, cmd, o, store);
    SameRolesOk(ok, w.(roles := RolesAfter(w, n, cmd)), w');
  }

  lemma SameRolesOk(ok: Id -> bool, w: World, w': World)
    requires RolesOk(ok, w) && w'.roles == w.roles && w.answered <= w'.answered && |w'.nodes| == |w.nodes|
    ensures RolesOk(ok, w')
  {
  }

  lemma ResultKeepsInv(ok: Id -> bool, w: World, n: nat, cmd: Command, o: Outcome, store: Store)
    requires Inv(ok, w) && RolesOk(ok, w.(roles := RolesAfter(w, n, cmd)))
    requires Extends(w.roles, RolesAfter(w, n, cmd)) && Plausible(w, n, cmd, o, store)
    requires Mints(cmd) ==> cmd.key !in w.roles
    requires cmd.Greet? ==> HonestHello(RolesAfter(w, n, cmd), cmd.caller, cmd.hello)
    requires cmd.Greet? ==> AtItsInviter(RolesAfter(w, n, cmd), n, cmd.caller)
    requires cmd.CommitAccept? ==> o.reply.Accepted? || o.reply.Refused?
    ensures Inv(ok, Resulting(w, n, cmd, o, store))
  {
    var w' := Resulting(w, n, cmd, o, store);
    RunKeepsNodes(ok, w, n, cmd, o, store);
    RunKeepsAnswers(ok, w, n, cmd, o, store);
    RunKeepsInvites(w, n, cmd, o, store);
    RunKeepsSent(ok, w, n, cmd, o, store);
    RunKeepsFlights(ok, w, n, cmd, o, store);
  }

  lemma CommitReplies(ok: Id -> bool, net: Network, cmd: Command, saves: bool)
    requires cmd.CommitAccept?
    ensures Execute(ok, net, cmd, saves).reply.Accepted? || Execute(ok, net, cmd, saves).reply.Refused?
  {
  }

  lemma RunKeepsInv(ok: Id -> bool, w: World, n: nat, cmd: Command, saves: bool)
    requires Inv(ok, w) && n < |w.nodes| && Permitted(ok, w, n, cmd)
    ensures Inv(ok, Ran(ok, w, n, cmd, saves))
  {
    var s := w.nodes[n].s;
    var o := Execute(ok, s.net, cmd, saves);
    OutcomeIsPlausible(ok, w, n, cmd, saves);
    RolesOnlyGrow(ok, w, n, cmd);
    RolesStayOk(ok, w, n, cmd);
    if cmd.CommitAccept? {
      CommitReplies(ok, s.net, cmd, saves);
    }
    if cmd.Greet? {
      HellosAreHonest(ok, w, n, cmd);
      GreetsItsInviter(ok, w, n, cmd);
    }
    ResultKeepsInv(ok, w, n, cmd, o, ApplyAll(s.store, o.writes));
  }

  // -- stopping, starting and the rest ------------------------------------------------------------

  /** A daemon running before still runs, with the same memory and files. */
  ghost predicate Undisturbed(w: World, w': World, i: nat) {
    && i < |w.nodes| && i < |w'.nodes|
    && (w.nodes[i].up ==> w'.nodes[i].up && w'.nodes[i].s.net == w.nodes[i].s.net
                          && w'.nodes[i].s.store == w.nodes[i].s.store)
  }

  lemma FlightsStayOk(w: World, w': World)
    requires FlightsOk(w) && Extends(w.roles, w'.roles) && w'.invites == w.invites
    requires forall m :: m in w'.flights ==>
               m in w.flights && w'.flights[m] == w.flights[m] && Undisturbed(w, w', w.flights[m].node)
    ensures FlightsOk(w')
  {
    forall m | m in w'.flights ensures FlightOk(w', m, w'.flights[m]) {
      assert FlightOk(w, m, w.flights[m]);
      FlightStaysOk(w, w', m, w.flights[m]);
    }
  }

  /** Daemon `n` has evolved and nothing was said. */
  lemma EvolvedKeepsInv(ok: Id -> bool, w: World, w': World, n: nat)
    requires Inv(ok, w) && Evolved(w, w', n) && RolesOk(ok, w')
    requires w'.invites == w.invites && w'.sent == w.sent && w'.replies == w.replies && w'.answered == w.answered
    requires forall m :: m in w'.flights ==>
               m in w.flights && w'.flights[m] == w.flights[m] && Undisturbed(w, w', w.flights[m].node)
    ensures Inv(ok, w')
  {
    NodesStayOk(w, w', n);
    AnswersStayRecorded(w, w', n);
    RepliesStayOk(w, w');
    InvitesStayOk(w, w');
    SentStaysOk(w, w');
    FlightsStayOk(w, w');
  }

  lemma DownKeepsInv(ok: Id -> bool, w: World, roles': Roles, n: nat, net': Network, ids: set<Id>, store: Store)
    requires Inv(ok, w) && n < |w.nodes| && Extends(w.roles, roles') && RolesOk(ok, w.(roles := roles'))
    requires Brought(w.nodes[n].s.net, net', ids) && Tidy(roles', w.answered, n, net')
    requires StoreFits(w.nodes[n].s, net', ids, store)
    ensures Inv(ok, Down(w.(roles := roles'), n, store))
  {
    var w' := Down(w.(roles := roles'), n, store);
    var s := w.nodes[n].s;
    assert StateOk(w.roles, w.answered, n, s);
    FileStaysOk(w.roles, roles', w.answered, n, s, net', ids, store);
    GrownReflexive(store.file);
    EvolvedKeepsInv(ok, w, w', n);
  }

  lemma CrashDuringKeepsInv(ok: Id -> bool, w: World, n: nat, cmd: Command, saves: bool, writes: nat)
    requires Inv(ok, w) && n < |w.nodes| && Permitted(ok, w, n, cmd)
    requires writes <= |Execute(ok, w.nodes[n].s.net, cmd, saves).writes|
    ensures Inv(ok, Down(w.(roles := RolesAfter(w, n, cmd)), n,
                         Stopped(ok, w.nodes[n].s.net, cmd, saves, w.nodes[n].s.store, writes)))
  {
    var s := w.nodes[n].s;
    OutcomeIsPlausible(ok, w, n, cmd, saves);
    StopsPlausibly(ok, w, n, cmd, saves, writes);
    RolesOnlyGrow(ok, w, n, cmd);
    RolesStayOk(ok, w, n, cmd);
    DownKeepsInv(ok, w, RolesAfter(w, n, cmd), n, Execute(ok, s.net, cmd, saves).net, Brings(cmd),
                 Stopped(ok, s.net, cmd, saves, s.store, writes));
  }

  /** Changing nothing of a daemon but which of its devices are connected, or starting it
      from its files. */
  lemma NodeReplaced(ok: Id -> bool, w: World, w': World, n: nat)
    requires Inv(ok, w) && n < |w.nodes|
    requires |w'.nodes| == |w.nodes| && w'.nodes == w.nodes[n := w'.nodes[n]]
    requires Extends(w.roles, w'.roles) && RolesOk(ok, w')
    requires w'.invites == w.invites && w'.sent == w.sent && w'.flights == w.flights
    requires w'.replies == w.replies && w'.answered == w.answered
    requires w'.nodes[n].s.store == w.nodes[n].s.store && (w.nodes[n].up ==> w'.nodes[n].up)
    requires w.nodes[n].up ==> w'.nodes[n].s.net == w.nodes[n].s.net
    requires StateOk(w.roles, w.answered, n, w'.nodes[n].s)
    ensures Inv(ok, w')
  {
    TidyGrows(w.roles, w'.roles, w.answered, w.answered, n, w'.nodes[n].s.net);
    TidyGrows(w.roles, w'.roles, w.answered, w.answered, n, w'.nodes[n].s.store.file);
    GrownReflexive(w.nodes[n].s.store.file);
    EvolvedKeepsInv(ok, w, w', n);
  }

  lemma IntroducedRolesOk(ok: Id -> bool, w: World, key: Id)
    requires RolesOk(ok, w)
    ensures RolesOk(ok, w.(roles := Introduce(w.roles, key))) && Extends(w.roles, Introduce(w.roles, key))
  {
  }

  lemma StartedIsOk(roles: Roles, answered: set<(Id, Id)>, n: nat, s: State)
    requires StateOk(roles, answered, n, s)
    ensures StateOk(roles, answered, n, Started(s.store))
  {
    GrownReflexive(s.store.file);
  }

  /** An outsider can only answer the dial of an accept whose invite no daemon of ours made. */
  lemma OutsideReplyKeepsInv(ok: Id -> bool, w: World, mine: Id, welcome: Welcome)
    requires Inv(ok, w) && mine in w.flights
    requires exists a :: a in w.flights[mine].invite.addresses && !(a in w.roles && w.roles[a].Address?)
    ensures Inv(ok, w.(replies := w.replies + {(mine, welcome)}))
  {
    OutsideReplyIsOk(ok, w, mine, welcome);
    OneMoreReply(ok, w, mine, welcome);
  }

  lemma OutsideReplyIsOk(ok: Id -> bool, w: World, mine: Id, welcome: Welcome)
    requires InvitesOk(w) && FlightsOk(w) && mine in w.flights
    requires exists a :: a in w.flights[mine].invite.addresses && !(a in w.roles && w.roles[a].Address?)
    ensures ReplyOk(w, mine, welcome)
  {
    var f := w.flights[mine];
    assert FlightOk(w, mine, f);
    assert f.invite in w.invites ==> InviteFits(w.roles, f.invite);
  }

  lemma OneMoreReply(ok: Id -> bool, w: World, mine: Id, welcome: Welcome)
    requires Inv(ok, w) && ReplyOk(w, mine, welcome)
    ensures Inv(ok, w.(replies := w.replies + {(mine, welcome)}))
  {
    var w' := w.(replies := w.replies + {(mine, welcome)});
    AnsweredElsewhere(w, w');
    FlightsElsewhere(w, w');
    forall r | r in w'.replies ensures ReplyOk(w', r.0, r.1) {
      assert r in w.replies ==> ReplyOk(w, r.0, r.1);
    }
  }

  lemma AnsweredElsewhere(w: World, w': World)
    requires AnsweredOk(w) && w'.nodes == w.nodes && w'.roles == w.roles && w'.answered == w.answered
    ensures AnsweredOk(w')
  {
    forall a | a in w'.answered ensures Recorded(w', a.0, a.1) {
      assert Recorded(w, a.0, a.1);
    }
  }

  lemma FlightsElsewhere(w: World, w': World)
    requires FlightsOk(w) && w'.nodes == w.nodes && w'.roles == w.roles && w'.invites == w.invites
    requires forall m :: m in w'.flights ==> m in w.flights && w'.flights[m] == w.flights[m]
    ensures FlightsOk(w')
  {
    forall m | m in w'.flights ensures FlightOk(w', m, w'.flights[m]) {
      assert FlightOk(w, m, w.flights[m]);
    }
  }

  /** Changing neither daemons nor roles nor replies. */
  lemma ElsewhereKeepsInv(ok: Id -> bool, w: World, w': World)
    requires Inv(ok, w) && w'.nodes == w.nodes && w'.roles == w.roles && w'.invites == w.invites && w'.sent == w.sent
    requires w'.replies == w.replies && w'.answered == w.answered
    requires forall m :: m in w'.flights ==> m in w.flights && w'.flights[m] == w.flights[m]
    ensures Inv(ok, w')
  {
    AnsweredElsewhere(w, w');
    FlightsElsewhere(w, w');
    forall r | r in w'.replies ensures ReplyOk(w', r.0, r.1) {
      assert ReplyOk(w, r.0, r.1);
    }
  }

  lemma CrashKeepsInv(ok: Id -> bool, w: World, n: nat)
    requires Inv(ok, w) && n < |w.nodes|
    ensures Inv(ok, Down(w, n, w.nodes[n].s.store))
  {
    var s := w.nodes[n].s;
    assert StateOk(w.roles, w.answered, n, s);
    GrownReflexive(s.net);
    DownKeepsInv(ok, w, w.roles, n, s.net, {}, s.store);
    assert w.(roles := w.roles) == w;
  }

  lemma RestartKeepsInv(ok: Id -> bool, w: World, w': World, n: nat)
    requires Inv(ok, w) && NextBy(ok, w, w', Restart(n))
    ensures Inv(ok, w')
  {
    assert StateOk(w.roles, w.answered, n, w.nodes[n].s);
    StartedIsOk(w.roles, w.answered, n, w.nodes[n].s);
    NodeReplaced(ok, w, w', n);
  }

  /** Devices coming and going. */
  lemma RosterChangeKeepsInv(ok: Id -> bool, w: World, w': World, n: nat, live: map<string, seq<string>>)
    requires Inv(ok, w) && n < |w.nodes| && Extends(w.roles, w'.roles) && RolesOk(ok, w')
    requires w'.nodes == w.nodes[n := w.nodes[n].(s := w.nodes[n].s.(live := live))]
    requires w'.invites == w.invites && w'.sent == w.sent && w'.flights == w.flights
    requires w'.replies == w.replies && w'.answered == w.answered
    ensures Inv(ok, w')
  {
    assert StateOk(w.roles, w.answered, n, w.nodes[n].s);
    NodeReplaced(ok, w, w', n);
  }

  lemma RegisterKeepsInv(ok: Id -> bool, w: World, w': World, n: nat, key: Id, hints: seq<string>)
    requires Inv(ok, w) && NextBy(ok, w, w', Register(n, key, hints))
    ensures Inv(ok, w')
  {
    IntroducedRolesOk(ok, w, key);
    RosterChangeKeepsInv(ok, w, w', n, w'.nodes[n].s.live);
  }

  lemma CloseKeepsInv(ok: Id -> bool, w: World, w': World, conn: nat)
    requires Inv(ok, w) && NextBy(ok, w, w', Close(conn))
    ensures Inv(ok, w')
  {
    var n := w.conns[conn].node;
    RosterChangeKeepsInv(ok, w, w', n, w'.nodes[n].s.live);
  }

  lemma CommandStepKeepsInv(ok: Id -> bool, w: World, w': World, step: Step)
    requires Inv(ok, w) && NextBy(ok, w, w', step) && (step.Run? || step.CrashDuring? || step.Crash?)
    ensures Inv(ok, w')
  {
    match step
    case Run(n, cmd, saves) => RunKeepsInv(ok, w, n, cmd, saves);
    case CrashDuring(n, cmd, saves, writes) => CrashDuringKeepsInv(ok, w, n, cmd, saves, writes);
    case Crash(n) => CrashKeepsInv(ok, w, n);
  }

  lemma QuietStepKeepsInv(ok: Id -> bool, w: World, w': World, step: Step)
    requires Inv(ok, w) && NextBy(ok, w, w', step)
    requires step.OutsideReply? || step.GiveUp? || step.Asks? || step.Tick?
    ensures Inv(ok, w')
  {
    if step.OutsideReply? {
      OutsideReplyKeepsInv(ok, w, step.mine, step.welcome);
    } else {
      ElsewhereKeepsInv(ok, w, w');
    }
  }

  lemma StepKeepsInv(ok: Id -> bool, w: World, w': World, step: Step)
    requires Inv(ok, w) && NextBy(ok, w, w', step)
    ensures Inv(ok, w')
  {
    match step
    case Run(_, _, _) => CommandStepKeepsInv(ok, w, w', step);
    case CrashDuring(_, _, _, _) => CommandStepKeepsInv(ok, w, w', step);
    case Crash(_) => CommandStepKeepsInv(ok, w, w', step);
    case Restart(n) => RestartKeepsInv(ok, w, w', n);
    case Register(n, key, hints) => RegisterKeepsInv(ok, w, w', n, key, hints);
    case Close(conn) => CloseKeepsInv(ok, w, w', conn);
    case OutsideReply(_, _) => QuietStepKeepsInv(ok, w, w', step);
    case GiveUp(_) => QuietStepKeepsInv(ok, w, w', step);
    case Asks(_, _) => QuietStepKeepsInv(ok, w, w', step);
    case Tick => QuietStepKeepsInv(ok, w, w', step);
  }

  lemma InitHasInv(ok: Id -> bool, w: World)
    requires Init(ok, w)
    ensures Inv(ok, w)
  {
    forall n | 0 <= n < |w.nodes| ensures StateOk(w.roles, w.answered, n, w.nodes[n].s) {
      assert FreshHome(ok, w, n);
      var key :| Founded(ok, w, n, key);
      GrownReflexive(InitialStore(key).file);
    }
  }

  lemma WorldKeepsInv(ok: Id -> bool, ws: seq<World>, steps: seq<Step>, i: nat)
    requires IsRun(ok, ws, steps) && i < |steps| && Inv(ok, ws[i])
    ensures Inv(ok, ws[i + 1])
  {
    StepOf(ok, ws, steps, i);
    StepKeepsInv(ok, ws[i], ws[i + 1], steps[i]);
  }

  /** Every world of every run satisfies the invariant. */
  lemma RunsKeepInv(ok: Id -> bool, ws: seq<World>, steps: seq<Step>, i: nat)
    requires IsRun(ok, ws, steps) && i < |ws|
    ensures Inv(ok, ws[i])
  {
    InitHasInv(ok, ws[0]);
    forall k | 0 <= k < i && Inv(ok, ws[k]) ensures Inv(ok, ws[k + 1]) {
      WorldKeepsInv(ok, ws, steps, k);
    }
    Onwards(ws, w => Inv(ok, w), 0, i);
  }
}
