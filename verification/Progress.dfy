/** Pairing can be done: from any usable world, an invite that is outstanding is taken up in
    three steps, each of which the world permits. */
module Progress {
  import opened Wrappers
  import opened Proto
  import opened Network
  import opened Commands
  import opened World
  import opened Invariant
  import opened Preservation
  import opened Edges
  import opened Restart

  /** Daemon `b` made the invite and still waits for it to be taken up, and one of the
      addresses in it is bound. */
  ghost predicate Outstanding(w: World, b: nat, invite: Invite, on: string, address: Id) {
    && b < |w.nodes| && w.nodes[b].up && invite in w.invites
    && PendingByMine(w.nodes[b].s.net, invite.identity).Some?
    && address in invite.addresses && Endpoint(on, address) in w.nodes[b].s.bound
  }

  /** Daemon `a` can set out to accept under `alias`, with a key nobody has seen. */
  ghost predicate Ready(ok: Id -> bool, w: World, a: nat, alias: string, key: Id) {
    && a < |w.nodes| && w.nodes[a].up && PeerByAlias(w.nodes[a].s.net, alias).None?
    && ok(key) && key !in w.roles
  }

  /** The hello of an accept by a daemon whose net is `net`. */
  function HelloOf(net: Network, invite: Invite, hints: seq<string>): Hello {
    Invited(invite.identity, CurrentAddresses(net), net.dns, hints)
  }

  /** The commit of an accept that was welcomed by a daemon whose net is `net`. */
  function CommitOf(net: Network, alias: string, invite: Invite, key: Id): Command {
    CommitAccept(alias, invite, key, CurrentAddresses(net), net.dns)
  }

  // -- the three steps -------------------------------------------------------------------------

  lemma PendingIdentity(ok: Id -> bool, w: World, b: nat, invite: Invite)
    requires Inv(ok, w) && b < |w.nodes| && PendingByMine(w.nodes[b].s.net, invite.identity).Some?
    ensures invite.identity in w.roles && w.roles[invite.identity] == PeerInvite(b)
    ensures PendingDeviceByInvite(w.nodes[b].s.net, invite.identity).None?
  {
    var s := w.nodes[b].s;
    assert StateOk(w.roles, w.answered, b, s);
    assert EntryOk(w.roles, w.answered, b, s.net.peers[PendingByMine(s.net, invite.identity).value]);
  }

  lemma UnseenIsUnknown(ok: Id -> bool, w: World, b: nat, key: Id)
    requires Inv(ok, w) && b < |w.nodes| && key !in w.roles
    ensures PeerByKey(w.nodes[b].s.net, key).None?
  {
    var net := w.nodes[b].s.net;
    assert StateOk(w.roles, w.answered, b, w.nodes[b].s);
    forall i | 0 <= i < |net.peers| ensures net.peers[i].peer != Some(key) {
      assert EntryOk(w.roles, w.answered, b, net.peers[i]);
    }
  }

  /** In `w1` daemon `a`'s accept is in flight and no daemon's net has changed. */
  ghost predicate Begun(w: World, w1: World, a: nat, alias: string, invite: Invite, key: Id, hello: Hello)
    requires a < |w.nodes|
  {
    && |w1.nodes| == |w.nodes| && w1.invites == w.invites
    && (forall n :: 0 <= n < |w.nodes| ==>
          && w1.nodes[n].up == w.nodes[n].up && w1.nodes[n].s.net == w.nodes[n].s.net
          && w1.nodes[n].s.bound == w.nodes[n].s.bound)
    && key in w1.flights && w1.flights[key] == Flight(a, alias, invite, hello)
    && key in w1.sent && w1.sent[key] == w1.flights[key]
  }

  lemma BeginLeaves(w: World, a: nat, alias: string, invite: Invite, key: Id, hints: seq<string>, hello: Hello,
                    writes: seq<Write>, store: Store)
    requires a < |w.nodes| && w.nodes[a].up
    ensures
      var o := Outcome(w.nodes[a].s.net, writes, Dialling(hello));
      Begun(w, Resulting(w, a, BeginAccept(alias, invite, key, hints), o, store), a, alias, invite, key, hello)
  {
  }

  lemma Begins(ok: Id -> bool, w: World, a: nat, b: nat, alias: string, invite: Invite, key: Id,
               hints: seq<string>, on: string, address: Id)
    requires Inv(ok, w) && ValidInv(ok, w) && Outstanding(w, b, invite, on, address) && Ready(ok, w, a, alias, key)
    ensures
      var begin := BeginAccept(alias, invite, key, hints);
      var w1 := Ran(ok, w, a, begin, true);
      && Permitted(ok, w, a, begin) && Inv(ok, w1) && ValidInv(ok, w1)
      && Begun(w, w1, a, alias, invite, key, HelloOf(w.nodes[a].s.net, invite, hints))
  {
    var s := w.nodes[a].s;
    var begin := BeginAccept(alias, invite, key, hints);
    PendingIdentity(ok, w, b, invite);
    RunKeepsInv(ok, w, a, begin, true);
    RunStaysValid(ok, w, a, begin, true);
    var o := Execute(ok, s.net, begin, true);
    assert o == Outcome(s.net, [KeyFile(key)], Dialling(HelloOf(s.net, invite, hints)));
    BeginLeaves(w, a, alias, invite, key, hints, o.reply.hello, o.writes, ApplyAll(s.store, o.writes));
  }

  /** A greeting takes no alias and frees none. */
  lemma AliasesStay(net: Network, net': Network, alias: string)
    requires Grown(net, net') && |net'.peers| == |net.peers|
    ensures PeerByAlias(net', alias).None? <==> PeerByAlias(net, alias).None?
  {
    assert forall j :: 0 <= j < |net.peers| ==> PeerGrown(net.peers[j], net'.peers[j]);
  }

  lemma TakesUp(ok: Id -> bool, net: Network, caller: Id, on: string, hello: Hello)
    requires Valid(ok, net) && Sound(net) && Recognise(net, caller, hello).Pairs?
    requires NamesHandshakeKey(net.handshakeKeys, on) && ok(caller) && AllDecode(ok, hello.addresses)
    ensures
      var net' := Greeted(net, caller, on, hello);
      && Execute(ok, net, Greet(caller, on, hello), true)
         == Outcome(net', SaveWrites(net', true),
                    Welcomed(Ok(AnswersTo(net, caller, hello), CurrentAddresses(net), net.dns)))
      && HasEntry(net', hello.invitedTo, caller) && Grown(net, net') && |net'.peers| == |net.peers|
  {
    var net' := Greeted(net, caller, on, hello);
    PairingValidIff(ok, net, caller, on, hello);
    PairedEntry(net, caller, on, hello);
    assert [] + SaveWrites(net', true) == SaveWrites(net', true);
  }

  lemma PairedEntry(net: Network, caller: Id, on: string, hello: Hello)
    requires Sound(net) && Recognise(net, caller, hello).Pairs?
    ensures
      var net' := Greeted(net, caller, on, hello);
      HasEntry(net', hello.invitedTo, caller) && Grown(net, net') && |net'.peers| == |net.peers|
  {
    GreetingTouchesOneEntry(net, caller, on, hello);
    GreetingGrows(net, caller, on, hello);
    var i := Recognise(net, caller, hello).index;
    var net' := Greeted(net, caller, on, hello);
    assert net'.peers[i].mine == hello.invitedTo && net'.peers[i].peer == Some(caller);
  }

  /** The inviter recognises the accept's hello, and the world lets it through. */
  lemma Knocks(ok: Id -> bool, w: World, a: nat, b: nat, alias: string, invite: Invite, key: Id,
               hello: Hello, on: string, address: Id)
    requires Inv(ok, w) && Outstanding(w, b, invite, on, address)
    requires key in w.sent && w.sent[key] == Flight(a, alias, invite, hello)
    requires PeerByKey(w.nodes[b].s.net, key).None?
    ensures Permitted(ok, w, b, Greet(key, on, hello))
    ensures hello.Invited? && hello.invitedTo == invite.identity && Recognise(w.nodes[b].s.net, key, hello).Pairs?
    ensures Acceptable(ok, w.nodes[b].s.net, Greet(key, on, hello))
  {
    assert HelloOk(w.roles, w.invites, key, w.sent[key]);
    assert ok(key);
    PendingIdentity(ok, w, b, invite);
    assert Endpoint(on, address).alias == on && Endpoint(on, address).key == address;
    assert MayDial(w, address, key, hello);
    PoliteGreetIsAcceptable(ok, w, b, Greet(key, on, hello));
  }

  lemma Greets(ok: Id -> bool, w: World, a: nat, b: nat, alias: string, invite: Invite, key: Id,
               hello: Hello, on: string, address: Id)
    requires Inv(ok, w) && ValidInv(ok, w) && Outstanding(w, b, invite, on, address)
    requires key in w.sent && w.sent[key] == Flight(a, alias, invite, hello)
    requires PeerByKey(w.nodes[b].s.net, key).None?
    requires a < |w.nodes| && w.nodes[a].up && PeerByAlias(w.nodes[a].s.net, alias).None?
    ensures
      var greet := Greet(key, on, hello);
      var w2 := Ran(ok, w, b, greet, true);
      Permitted(ok, w, b, greet) && Inv(ok, w2) && ValidInv(ok, w2) && Answered(w, w2, a, b, alias, invite, key)
  {
    var net := w.nodes[b].s.net;
    var greet := Greet(key, on, hello);
    Knocks(ok, w, a, b, alias, invite, key, hello, on, address);
    assert Sound(net) by {
      assert StateOk(w.roles, w.answered, b, w.nodes[b].s);
    }
    TakesUp(ok, net, key, on, hello);
    AliasesStay(net, Greeted(net, key, on, hello), alias);
    RunKeepsInv(ok, w, b, greet, true);
    RunStaysValid(ok, w, b, greet, true);
    WelcomeLeaves(w, a, b, alias, invite, greet, Execute(ok, net, greet, true));
  }

  /** In `w2` daemon `b` has recorded `key` and its welcome is on the way. */
  ghost predicate Answered(w: World, w2: World, a: nat, b: nat, alias: string, invite: Invite, key: Id)
    requires a < |w.nodes| && b < |w.nodes|
  {
    && |w2.nodes| == |w.nodes| && w2.nodes[a].up && PeerByAlias(w2.nodes[a].s.net, alias).None?
    && HasEntry(w2.nodes[b].s.store.file, invite.identity, key)
    && w2.invites == w.invites && w2.flights == w.flights
    && exists theirs :: (key, Ok(theirs, CurrentAddresses(w.nodes[b].s.net), w.nodes[b].s.net.dns)) in w2.replies
  }

  /** What a welcome leaves behind. */
  lemma WelcomeLeaves(w: World, a: nat, b: nat, alias: string, invite: Invite, greet: Command, o: Outcome)
    requires a < |w.nodes| && w.nodes[a].up && PeerByAlias(w.nodes[a].s.net, alias).None?
    requires b < |w.nodes| && ReplyFits(w.nodes[b].s.net, greet, o) && o.reply.Welcomed?
    requires o.writes == SaveWrites(o.net, true) && HasEntry(o.net, invite.identity, greet.caller)
    requires PeerByAlias(w.nodes[b].s.net, alias).None? <==> PeerByAlias(o.net, alias).None?
    requires o.reply.welcome.Ok? && o.reply.welcome.addresses == CurrentAddresses(w.nodes[b].s.net)
             && o.reply.welcome.dns == w.nodes[b].s.net.dns
    ensures Answered(w, Resulting(w, b, greet, o, ApplyAll(w.nodes[b].s.store, o.writes)), a, b, alias, invite,
                     greet.caller)
  {
    var store := ApplyAll(w.nodes[b].s.store, o.writes);
    assert SaveWrites(o.net, true)[..3] == SaveWrites(o.net, true);
    StoppedSave(w.nodes[b].s.store, o.net, true, 3);
    var w2 := Resulting(w, b, greet, o, store);
    assert w2.nodes == w.nodes[b := Node(true, w.nodes[b].s.(net := o.net, store := store))] && store.file == o.net;
    var net := w.nodes[b].s.net;
    assert (greet.caller, Ok(o.reply.welcome.alias, CurrentAddresses(net), net.dns)) in w2.replies;
  }

  lemma CommitIsAccepted(ok: Id -> bool, net: Network, store: Store, commit: Command)
    requires Valid(ok, net) && Sound(net) && commit.CommitAccept? && Acceptable(ok, net, commit)
    ensures
      var o := Execute(ok, net, commit, true);
      && o.reply == Accepted(commit.alias)
      && HasEntry(ApplyAll(store, o.writes).file, commit.mine, commit.invite.identity)
  {
    CommandValidIff(ok, net, commit, true);
    var o := Execute(ok, net, commit, true);
    var net' := NextNet(net, commit);
    assert net'.peers[|net.peers|].mine == commit.mine && net'.peers[|net.peers|].peer == Some(commit.invite.identity);
    CrashPoints(ok, net, commit, true, store, |o.writes|);
    assert o.writes[..|o.writes|] == o.writes;
  }

  lemma CommitLeaves(w: World, a: nat, commit: Command, o: Outcome, store: Store)
    requires a < |w.nodes| && commit.CommitAccept? && o.reply.Accepted?
    ensures
      var w3 := Resulting(w, a, commit, o, store);
      |w3.nodes| == |w.nodes| && w3.nodes[a].s.store == store
  {
  }

  lemma CommitIsAcceptable(ok: Id -> bool, w: World, a: nat, commit: Command)
    requires Inv(ok, w) && ValidInv(ok, w) && a < |w.nodes| && commit.CommitAccept? && Permitted(ok, w, a, commit)
    requires PeerByAlias(w.nodes[a].s.net, commit.alias).None? && commit.invite in w.invites
    ensures Valid(ok, w.nodes[a].s.net) && Sound(w.nodes[a].s.net) && Acceptable(ok, w.nodes[a].s.net, commit)
  {
    PoliteCommitIsAcceptable(ok, w, a, commit);
    assert StateOk(w.roles, w.answered, a, w.nodes[a].s);
  }

  lemma Commits(ok: Id -> bool, w: World, a: nat, b: nat, commit: Command)
    requires Inv(ok, w) && ValidInv(ok, w) && a < |w.nodes| && b < |w.nodes| && commit.CommitAccept?
    requires PeerByAlias(w.nodes[a].s.net, commit.alias).None? && commit.invite in w.invites
    requires Permitted(ok, w, a, commit) && HasEntry(w.nodes[b].s.store.file, commit.invite.identity, commit.mine)
    ensures
      var w3 := Ran(ok, w, a, commit, true);
      && Execute(ok, w.nodes[a].s.net, commit, true).reply == Accepted(commit.alias)
      && |w3.nodes| == |w.nodes|
      && HasEntry(w3.nodes[a].s.store.file, commit.mine, commit.invite.identity)
      && HasEntry(w3.nodes[b].s.store.file, commit.invite.identity, commit.mine)
  {
    var s := w.nodes[a].s;
    CommitIsAcceptable(ok, w, a, commit);
    CommitIsAccepted(ok, s.net, s.store, commit);
    var o := Execute(ok, s.net, commit, true);
    CommitLeaves(w, a, commit, o, ApplyAll(s.store, o.writes));
    RunGrows(ok, w, a, commit, true, b);
    EntryStays(w.nodes[b].s.store.file, Ran(ok, w, a, commit, true).nodes[b].s.store.file,
               commit.invite.identity, commit.mine);
  }

  // -- together --------------------------------------------------------------------------------

  /** What the three steps come to: each is permitted in its turn, the accept succeeds, and the
      edge is mirrored in both files. */
  ghost predicate PairsInThree(ok: Id -> bool, w: World, a: nat, b: nat, alias: string, invite: Invite, key: Id,
                         hints: seq<string>, on: string)
    requires a < |w.nodes| && b < |w.nodes|
  {
    var begin := BeginAccept(alias, invite, key, hints);
    var greet := Greet(key, on, HelloOf(w.nodes[a].s.net, invite, hints));
    var commit := CommitOf(w.nodes[b].s.net, alias, invite, key);
    var w1 := Ran(ok, w, a, begin, true);
    && Permitted(ok, w, a, begin)
    && |w1.nodes| == |w.nodes| && Permitted(ok, w1, b, greet)
    && var w2 := Ran(ok, w1, b, greet, true);
       && |w2.nodes| == |w.nodes| && Permitted(ok, w2, a, commit)
       && Execute(ok, w2.nodes[a].s.net, commit, true).reply == Accepted(alias)
       && var w3 := Ran(ok, w2, a, commit, true);
          && |w3.nodes| == |w.nodes|
          && HasEntry(w3.nodes[a].s.store.file, key, invite.identity)
          && HasEntry(w3.nodes[b].s.store.file, invite.identity, key)
  }

  /** Pairing completes. An outstanding invite, given to any daemon that has not used the alias,
      is taken up when the accept's hello and the welcome get through. */
  lemma PairingCompletes(ok: Id -> bool, w: World, a: nat, b: nat, alias: string, invite: Invite, key: Id,
                         hints: seq<string>, on: string, address: Id)
    requires Inv(ok, w) && ValidInv(ok, w) && Outstanding(w, b, invite, on, address) && Ready(ok, w, a, alias, key)
    ensures PairsInThree(ok, w, a, b, alias, invite, key, hints, on)
  {
    var begin := BeginAccept(alias, invite, key, hints);
    var hello := HelloOf(w.nodes[a].s.net, invite, hints);
    var w1 := Ran(ok, w, a, begin, true);
    Begins(ok, w, a, b, alias, invite, key, hints, on, address);
    UnseenIsUnknown(ok, w, b, key);
    var w2 := Ran(ok, w1, b, Greet(key, on, hello), true);
    Greets(ok, w1, a, b, alias, invite, key, hello, on, address);
    var commit := CommitOf(w.nodes[b].s.net, alias, invite, key);
    assert Permitted(ok, w2, a, commit);
    Commits(ok, w2, a, b, commit);
  }

  // -- a device ----------------------------------------------------------------------------------

  /** Daemon `b` still waits for a device to take the invite up, and one of the addresses in it is
      bound. */
  ghost predicate Awaiting(w: World, b: nat, invite: Invite, on: string, address: Id) {
    && b < |w.nodes| && w.nodes[b].up && invite in w.invites
    && PendingDeviceByInvite(w.nodes[b].s.net, invite.identity).Some?
    && address in invite.addresses && Endpoint(on, address) in w.nodes[b].s.bound
  }

  /** A device's key that nobody has seen. */
  ghost predicate NewKey(ok: Id -> bool, w: World, b: nat, key: Id)
    requires b < |w.nodes|
  {
    ok(key) && key !in w.roles && DeviceByKey(w.nodes[b].s.net, key).None?
  }

  lemma EnrolsNewKey(ok: Id -> bool, net: Network, caller: Id, on: string, hello: Hello)
    requires Valid(ok, net) && Sound(net) && Recognise(net, caller, hello).Enrols? && ok(caller)
    requires DeviceByKey(net, caller).None?
    ensures
      var net' := Greeted(net, caller, on, hello);
      var i := Recognise(net, caller, hello).index;
      && Execute(ok, net, Greet(caller, on, hello), true)
         == Outcome(net', SaveWrites(net', true),
                    Welcomed(Ok(net.devices[i].name, CurrentAddresses(net), net.dns)))
      && HasDevice(net', net.devices[i].name, caller)
      && DeviceByName(net', net.devices[i].name) == Some(i) == DeviceByKey(net', caller)
      && net'.devices[i].keys == [caller] && net'.handshakeKeys == net.handshakeKeys
  {
    var net' := Greeted(net, caller, on, hello);
    var i := Recognise(net, caller, hello).index;
    EnrolmentValidIff(ok, net, caller, on, hello);
    GreetingTouchesOneEntry(net, caller, on, hello);
    assert net'.devices[i] == Device(net.devices[i].name, [caller], None);
    assert [] + SaveWrites(net', true) == SaveWrites(net', true);
  }

  /** What enrolling leaves behind. */
  lemma EnrolmentLeaves(w: World, b: nat, greet: Command, o: Outcome, key: Id)
    requires b < |w.nodes| && greet.Greet? && greet.caller == key && key !in w.roles
    requires ReplyFits(w.nodes[b].s.net, greet, o) && o.reply.Welcomed? && o.writes == SaveWrites(o.net, true)
    ensures
      var w1 := Resulting(w, b, greet, o, ApplyAll(w.nodes[b].s.store, o.writes));
      && |w1.nodes| == |w.nodes| && w1.nodes[b].up
      && w1.nodes[b].s.net == o.net == w1.nodes[b].s.store.file
      && w1.nodes[b].s.store.keys == w.nodes[b].s.store.keys
      && key in w1.roles && w1.roles[key].Outside?
  {
    var store := ApplyAll(w.nodes[b].s.store, o.writes);
    assert SaveWrites(o.net, true)[..3] == SaveWrites(o.net, true);
    StoppedSave(w.nodes[b].s.store, o.net, true, 3);
    ResultNodes(w, b, greet, o, store);
  }

  /** `w` once the device `name` of daemon `b` has connected. */
  ghost function Connected(w: World, b: nat, key: Id, name: string, hints: seq<string>): World
    requires b < |w.nodes|
  {
    w.(nodes := w.nodes[b := Node(true, AfterRegister(w.nodes[b].s, key, hints))],
       roles := Introduce(w.roles, key),
       conns := w.conns[w.nextConn := Conn(b, key, DeviceAsker(name, hints))],
       nextConn := w.nextConn + 1)
  }

  lemma DeviceKnocks(ok: Id -> bool, w: World, b: nat, invite: Invite, on: string, address: Id, key: Id, hello: Hello)
    requires Inv(ok, w) && Awaiting(w, b, invite, on, address) && NewKey(ok, w, b, key)
    requires hello.Invited? && hello.invitedTo == invite.identity
    ensures
      var net := w.nodes[b].s.net;
      var i := PendingDeviceByInvite(net, invite.identity).value;
      && Permitted(ok, w, b, Greet(key, on, hello)) && Recognise(net, key, hello) == Enrols(i)
      && invite.identity in w.roles && w.roles[invite.identity] == DeviceInvite(b, net.devices[i].name)
  {
    assert StateOk(w.roles, w.answered, b, w.nodes[b].s);
    UnseenIsUnknown(ok, w, b, key);
    assert Endpoint(on, address).alias == on && MayDial(w, Endpoint(on, address).key, key, hello);
  }

  /** Device `name` of daemon `b`, with that key and no other, can connect. */
  ghost predicate CanConnect(w: World, b: nat, key: Id, name: string) {
    && b < |w.nodes| && w.nodes[b].up && key in w.roles && w.roles[key].Outside?
    && var net := w.nodes[b].s.net;
       && DeviceByName(net, name).Some? && DeviceByKey(net, key) == DeviceByName(net, name)
       && net.devices[DeviceByName(net, name).value].keys == [key]
       && CurrentAddresses(net) != [] && CurrentAddresses(net)[0] in w.nodes[b].s.store.keys
  }

  lemma ConnectsAndIsFound(ok: Id -> bool, w: World, b: nat, key: Id, name: string, hints: seq<string>, asking: Id)
    requires CanConnect(w, b, key, name) && ok(key) && ok(asking)
    ensures
      var w1 := Connected(w, b, key, name, hints);
      && NextBy(ok, w, w1, Step.Register(b, key, hints))
      && Locate(ok, w1.nodes[b].s, name, asking)
         == Some(Found(key, hints, CurrentAddresses(w.nodes[b].s.net)[0]))
  {
    var net := w.nodes[b].s.net;
    assert net.devices[DeviceByKey(net, key).value].name == name;
    assert AfterRegister(w.nodes[b].s, key, hints) == w.nodes[b].s.(live := w.nodes[b].s.live[name := hints]);
  }

  lemma SignsWithAHeldKey(roles: Roles, answered: set<(Id, Id)>, b: nat, s: State)
    requires StateOk(roles, answered, b, s)
    ensures CurrentAddresses(s.net) != [] && CurrentAddresses(s.net)[0] in s.store.keys
  {
  }

  lemma EnrolsIn(ok: Id -> bool, w: World, b: nat, greet: Command, i: nat)
    requires Inv(ok, w) && ValidInv(ok, w) && b < |w.nodes| && greet.Greet? && NewKey(ok, w, b, greet.caller)
    requires Recognise(w.nodes[b].s.net, greet.caller, greet.hello) == Enrols(i)
    ensures
      var net := w.nodes[b].s.net;
      var name := net.devices[i].name;
      var w1 := Ran(ok, w, b, greet, true);
      && Execute(ok, net, greet, true).reply == Welcomed(Ok(name, CurrentAddresses(net), net.dns))
      && |w1.nodes| == |w.nodes| && w1.nodes[b].s.store.file == w1.nodes[b].s.net
      && HasDevice(w1.nodes[b].s.net, name, greet.caller) && CanConnect(w1, b, greet.caller, name)
      && CurrentAddresses(w1.nodes[b].s.net) == CurrentAddresses(net)
  {
    var s := w.nodes[b].s;
    assert StateOk(w.roles, w.answered, b, s);
    SignsWithAHeldKey(w.roles, w.answered, b, s);
    EnrolsNewKey(ok, s.net, greet.caller, greet.on, greet.hello);
    RepliesFit(ok, s.net, greet, true);
    EnrolmentLeaves(w, b, greet, Execute(ok, s.net, greet, true), greet.caller);
  }

  /** Enrolling completes. An outstanding device invite is taken up by a device with a new key in two
      steps: one greeting that is welcomed and enrols it under the name the invite was made for, in
      memory and on disk, and one connection, from which on anybody's ask for that name finds that
      key where the device listens. */
  lemma EnrolmentCompletes(ok: Id -> bool, w: World, b: nat, invite: Invite, on: string, address: Id,
                           key: Id, hello: Hello, hints: seq<string>, asking: Id)
    requires Inv(ok, w) && ValidInv(ok, w) && Awaiting(w, b, invite, on, address) && NewKey(ok, w, b, key)
    requires hello.Invited? && hello.invitedTo == invite.identity && ok(asking)
    ensures
      var net := w.nodes[b].s.net;
      var name := net.devices[PendingDeviceByInvite(net, invite.identity).value].name;
      var greet := Greet(key, on, hello);
      var w1 := Ran(ok, w, b, greet, true);
      var w2 := Connected(w1, b, key, name, hints);
      && NextBy(ok, w, w1, Run(b, greet, true)) && NextBy(ok, w1, w2, Step.Register(b, key, hints))
      && Execute(ok, net, greet, true).reply == Welcomed(Ok(name, CurrentAddresses(net), net.dns))
      && w.roles[invite.identity] == DeviceInvite(b, name)
      && HasDevice(w1.nodes[b].s.net, name, key) && HasDevice(w1.nodes[b].s.store.file, name, key)
      && Locate(ok, w2.nodes[b].s, name, asking) == Some(Found(key, hints, CurrentAddresses(net)[0]))
  {
    var i := PendingDeviceByInvite(w.nodes[b].s.net, invite.identity).value;
    var greet := Greet(key, on, hello);
    DeviceKnocks(ok, w, b, invite, on, address, key, hello);
    EnrolsIn(ok, w, b, greet, i);
    ConnectsAndIsFound(ok, Ran(ok, w, b, greet, true), b, key, w.nodes[b].s.net.devices[i].name, hints, asking);
  }
}
