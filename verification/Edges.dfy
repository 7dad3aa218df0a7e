/** What relationships come to over whole runs: mirrored, spent once, one identity each. */
module Edges {
  import opened Wrappers
  import opened Proto
  import opened Network
  import opened Commands
  import opened World
  import opened Invariant
  import opened Preservation

  // -- runs ------------------------------------------------------------------------------------

  /** Step `i` ran `cmd` on daemon `n` to its end, and `reply` was the reply. */
  ghost predicate RanAt(ok: Id -> bool, ws: seq<World>, steps: seq<Step>, i: nat, n: nat, cmd: Command, reply: Reply)
    requires IsRun(ok, ws, steps)
  {
    && i < |steps| && steps[i].Run? && steps[i].n == n < |ws[i].nodes| && steps[i].cmd == cmd
    && Execute(ok, ws[i].nodes[n].s.net, cmd, steps[i].saves).reply == reply
  }

  /** What a step never takes back. */
  ghost predicate Onward(w: World, w': World) {
    && |w'.nodes| == |w.nodes| && Extends(w.roles, w'.roles)
    && w.invites <= w'.invites && w.answered <= w'.answered && w.tickets <= w'.tickets && w.now <= w'.now
  }

  lemma ResultGoesOn(w: World, n: nat, cmd: Command, o: Outcome, store: Store)
    requires n < |w.nodes| && ReplyFits(w.nodes[n].s.net, cmd, o) && Extends(w.roles, RolesAfter(w, n, cmd))
    ensures Onward(w, Resulting(w, n, cmd, o, store))
  {
  }

  lemma StepsGoOn(ok: Id -> bool, w: World, w': World, step: Step)
    requires NextBy(ok, w, w', step)
    ensures Onward(w, w')
  {
    if step.Run? {
      var s := w.nodes[step.n].s;
      RolesOnlyGrow(ok, w, step.n, step.cmd);
      RepliesFit(ok, s.net, step.cmd, step.saves);
      var o := Execute(ok, s.net, step.cmd, step.saves);
      ResultGoesOn(w, step.n, step.cmd, o, ApplyAll(s.store, o.writes));
    } else if step.CrashDuring? {
      RolesOnlyGrow(ok, w, step.n, step.cmd);
    }
  }

  lemma WorldGoesOn(ok: Id -> bool, ws: seq<World>, steps: seq<Step>, i: nat)
    requires IsRun(ok, ws, steps) && i < |steps|
    ensures Onward(ws[i], ws[i + 1])
  {
    StepOf(ok, ws, steps, i);
    StepsGoOn(ok, ws[i], ws[i + 1], steps[i]);
  }

  lemma OnwardTransitive(a: World, b: World, c: World)
    requires Onward(a, b) && Onward(b, c)
    ensures Onward(a, c)
  {
  }

  lemma RunsGoOn(ok: Id -> bool, ws: seq<World>, steps: seq<Step>, i: nat, j: nat)
    requires IsRun(ok, ws, steps) && i <= j < |ws|
    ensures Onward(ws[i], ws[j])
  {
    forall k | i <= k < j && Onward(ws[i], ws[k]) ensures Onward(ws[i], ws[k + 1]) {
      WorldGoesOn(ok, ws, steps, k);
      OnwardTransitive(ws[i], ws[k], ws[k + 1]);
    }
    Onwards(ws, w => Onward(ws[i], w), i, j);
  }

  // -- one way ---------------------------------------------------------------------------------

  lemma CommandGrowsFile(ok: Id -> bool, s: State, cmd: Command, saves: bool, writes: nat)
    requires Sound(s.net) && Grown(s.store.file, s.net) && writes <= |Execute(ok, s.net, cmd, saves).writes|
    ensures Grown(s.store.file, Stopped(ok, s.net, cmd, saves, s.store, writes).file)
  {
    GrownReflexive(s.store.file);
    CommandGrows(ok, s.net, cmd, saves);
    GrownTransitive(s.store.file, s.net, Execute(ok, s.net, cmd, saves).net);
    CrashPoints(ok, s.net, cmd, saves, s.store, writes);
  }

  lemma ResultGrows(w: World, n: nat, cmd: Command, o: Outcome, store: Store, i: nat)
    requires n < |w.nodes| && i < |w.nodes| && ReplyFits(w.nodes[n].s.net, cmd, o)
    requires Grown(w.nodes[n].s.net, o.net) && Grown(w.nodes[n].s.store.file, store.file)
    ensures |Resulting(w, n, cmd, o, store).nodes| == |w.nodes|
    ensures Grown(w.nodes[i].s.store.file, Resulting(w, n, cmd, o, store).nodes[i].s.store.file)
    ensures Grown(w.nodes[i].s.net, Resulting(w, n, cmd, o, store).nodes[i].s.net)
  {
    GrownReflexive(w.nodes[i].s.store.file);
    GrownReflexive(w.nodes[i].s.net);
  }

  lemma RunGrows(ok: Id -> bool, w: World, n: nat, cmd: Command, saves: bool, i: nat)
    requires Inv(ok, w) && n < |w.nodes| && i < |w.nodes|
    ensures |Ran(ok, w, n, cmd, saves).nodes| == |w.nodes|
    ensures Grown(w.nodes[i].s.store.file, Ran(ok, w, n, cmd, saves).nodes[i].s.store.file)
    ensures Grown(w.nodes[i].s.net, Ran(ok, w, n, cmd, saves).nodes[i].s.net)
  {
    var s := w.nodes[n].s;
    assert StateOk(w.roles, w.answered, n, s);
    var o := Execute(ok, s.net, cmd, saves);
    RepliesFit(ok, s.net, cmd, saves);
    CommandGrows(ok, s.net, cmd, saves);
    CommandGrowsFile(ok, s, cmd, saves, |o.writes|);
    assert o.writes[..|o.writes|] == o.writes;
    ResultGrows(w, n, cmd, o, ApplyAll(s.store, o.writes), i);
  }

  lemma CrashGrowsFile(ok: Id -> bool, w: World, n: nat, cmd: Command, saves: bool, writes: nat, i: nat)
    requires Inv(ok, w) && n < |w.nodes| && i < |w.nodes|
    requires writes <= |Execute(ok, w.nodes[n].s.net, cmd, saves).writes|
    ensures
      var w' := Down(w.(roles := RolesAfter(w, n, cmd)), n,
                     Stopped(ok, w.nodes[n].s.net, cmd, saves, w.nodes[n].s.store, writes));
      && |w'.nodes| == |w.nodes| && Grown(w.nodes[i].s.store.file, w'.nodes[i].s.store.file)
      && (i != n ==> w'.nodes[i] == w.nodes[i])
  {
    assert StateOk(w.roles, w.answered, n, w.nodes[n].s);
    CommandGrowsFile(ok, w.nodes[n].s, cmd, saves, writes);
    GrownReflexive(w.nodes[i].s.store.file);
  }

  /** The step does not stop or start daemon `n`. */
  predicate Alive(step: Step, n: nat) {
    !((step.CrashDuring? || step.Crash? || step.Restart?) && step.n == n)
  }

  lemma StopOrStart(ok: Id -> bool, w: World, w': World, step: Step, b: nat)
    requires NextBy(ok, w, w', step) && b < |w.nodes| && !Alive(step, b)
    ensures b < |w'.nodes|
    ensures step.Restart? ==> !w.nodes[b].up && w'.nodes[b].up && w'.nodes[b].s.net == w'.nodes[b].s.store.file
    ensures !step.Restart? ==> !w'.nodes[b].up
  {
  }

  lemma StaysUp(ok: Id -> bool, w: World, w': World, step: Step, b: nat)
    requires NextBy(ok, w, w', step) && b < |w.nodes| && Alive(step, b)
    ensures b < |w'.nodes| && w'.nodes[b].up == w.nodes[b].up
  {
    if step.Run? {
      var s := w.nodes[step.n].s;
      var o := Execute(ok, s.net, step.cmd, step.saves);
      RepliesFit(ok, s.net, step.cmd, step.saves);
      ResultNodes(w, step.n, step.cmd, o, ApplyAll(s.store, o.writes));
    }
  }

  lemma QuietStepGrows(ok: Id -> bool, w: World, w': World, step: Step, n: nat)
    requires NextBy(ok, w, w', step) && n < |w.nodes| && !step.Run? && !step.CrashDuring?
    ensures n < |w'.nodes| && w'.nodes[n].s.store.file == w.nodes[n].s.store.file
    ensures Alive(step, n) ==> w'.nodes[n].s.net == w.nodes[n].s.net
  {
  }

  lemma StepGrows(ok: Id -> bool, w: World, w': World, step: Step, n: nat)
    requires Inv(ok, w) && NextBy(ok, w, w', step) && n < |w.nodes|
    ensures n < |w'.nodes| && Grown(w.nodes[n].s.store.file, w'.nodes[n].s.store.file)
    ensures Alive(step, n) ==> Grown(w.nodes[n].s.net, w'.nodes[n].s.net)
  {
    if step.Run? {
      RunGrows(ok, w, step.n, step.cmd, step.saves, n);
    } else if step.CrashDuring? {
      CrashGrowsFile(ok, w, step.n, step.cmd, step.saves, step.writes, n);
      GrownReflexive(w.nodes[n].s.net);
    } else {
      QuietStepGrows(ok, w, w', step, n);
      GrownReflexive(w.nodes[n].s.store.file);
      GrownReflexive(w.nodes[n].s.net);
    }
  }

  ghost predicate FileGrown(w: World, w': World, n: nat) {
    n < |w.nodes| && n < |w'.nodes| && Grown(w.nodes[n].s.store.file, w'.nodes[n].s.store.file)
  }

  ghost predicate MemoryGrown(w: World, w': World, n: nat) {
    n < |w.nodes| && n < |w'.nodes| && Grown(w.nodes[n].s.net, w'.nodes[n].s.net)
  }

  lemma WorldGrows(ok: Id -> bool, ws: seq<World>, steps: seq<Step>, i: nat, n: nat)
    requires IsRun(ok, ws, steps) && i < |steps| && n < |ws[i].nodes|
    ensures FileGrown(ws[i], ws[i + 1], n)
    ensures Alive(steps[i], n) ==> MemoryGrown(ws[i], ws[i + 1], n)
  {
    RunsKeepInv(ok, ws, steps, i);
    StepOf(ok, ws, steps, i);
    StepGrows(ok, ws[i], ws[i + 1], steps[i], n);
  }

  /** Across any run, crashes, failed writes and refused checks included, a daemon's file
      only grows: no entry goes, no alias, identity or name changes, a counterpart once
      recorded stays, a device that enrolled keeps its key. */
  lemma FilesGrow(ok: Id -> bool, ws: seq<World>, steps: seq<Step>, i: nat, j: nat, n: nat)
    requires IsRun(ok, ws, steps) && i <= j < |ws| && n < |ws[i].nodes|
    ensures FileGrown(ws[i], ws[j], n)
  {
    GrownReflexive(ws[i].nodes[n].s.store.file);
    forall k | i <= k < j && FileGrown(ws[i], ws[k], n) ensures FileGrown(ws[i], ws[k + 1], n) {
      WorldGrows(ok, ws, steps, k, n);
      GrownTransitive(ws[i].nodes[n].s.store.file, ws[k].nodes[n].s.store.file, ws[k + 1].nodes[n].s.store.file);
    }
    Onwards(ws, w => FileGrown(ws[i], w, n), i, j);
  }

  /** So does its memory for as long as it lives. */
  lemma MemoryGrows(ok: Id -> bool, ws: seq<World>, steps: seq<Step>, i: nat, j: nat, n: nat)
    requires IsRun(ok, ws, steps) && i <= j < |ws| && n < |ws[i].nodes|
    requires forall k :: i <= k < j ==> Alive(steps[k], n)
    ensures MemoryGrown(ws[i], ws[j], n)
  {
    GrownReflexive(ws[i].nodes[n].s.net);
    forall k | i <= k < j && MemoryGrown(ws[i], ws[k], n) ensures MemoryGrown(ws[i], ws[k + 1], n) {
      WorldGrows(ok, ws, steps, k, n);
      GrownTransitive(ws[i].nodes[n].s.net, ws[k].nodes[n].s.net, ws[k + 1].nodes[n].s.net);
    }
    Onwards(ws, w => MemoryGrown(ws[i], w, n), i, j);
  }

  // -- invites -----------------------------------------------------------------------------------

  lemma InviteIsKept(ok: Id -> bool, ws: seq<World>, steps: seq<Step>, i: nat, b: nat, cmd: Command,
                     invite: Invite, k: nat)
    requires IsRun(ok, ws, steps) && i < k < |ws| && RanAt(ok, ws, steps, i, b, cmd, Issued(invite))
    ensures invite in ws[k].invites && Mints(cmd) && invite.identity == cmd.key
    ensures cmd.key in ws[k].roles && ws[k].roles[cmd.key] == MintedRole(ws[i], b, cmd)
  {
    StepOf(ok, ws, steps, i);
    RepliesFit(ok, ws[i].nodes[b].s.net, cmd, steps[i].saves);
    RunsGoOn(ok, ws, steps, i + 1, k);
    assert invite in ws[i + 1].invites;
  }

  /** Step `j` set daemon `n` to run `cmd`, to its end or until a crash cut it short. */
  ghost predicate Attempts(steps: seq<Step>, j: nat, n: nat, cmd: Command) {
    j < |steps| && (steps[j].Run? || steps[j].CrashDuring?) && steps[j].n == n && steps[j].cmd == cmd
  }

  lemma AttemptIsPermitted(ok: Id -> bool, ws: seq<World>, steps: seq<Step>, j: nat, n: nat, cmd: Command)
    requires IsRun(ok, ws, steps) && Attempts(steps, j, n, cmd)
    ensures n < |ws[j].nodes| && Permitted(ok, ws[j], n, cmd)
  {
    StepOf(ok, ws, steps, j);
  }

  /** What an identity was minted for is never forgotten. */
  lemma DiallerIsKept(ok: Id -> bool, ws: seq<World>, steps: seq<Step>, j: nat, a: nat, begin: Command, k: nat)
    requires IsRun(ok, ws, steps) && j < k < |ws| && begin.BeginAccept? && Attempts(steps, j, a, begin)
    ensures begin.key in ws[k].roles
    ensures ws[k].roles[begin.key] == Dialler(a, begin.invite.identity, begin.invite in ws[j].invites)
  {
    StepOf(ok, ws, steps, j);
    RunsGoOn(ok, ws, steps, j + 1, k);
    assert ws[j + 1].roles == RolesAfter(ws[j], a, begin);
  }

  // -- mirrored edges ------------------------------------------------------------------------------

  /** An entry a daemon holds, in memory or on disk. */
  ghost predicate Holds(s: State, e: Peer) {
    e in s.net.peers || e in s.store.file.peers
  }

  /** What the daemon whose identity `p` is has on record, on disk and so in memory. */
  lemma RecordedTwice(ok: Id -> bool, w: World, p: Id, k: Id)
    requires Inv(ok, w) && Recorded(w, p, k)
    ensures
      var s := w.nodes[w.roles[p].node].s;
      if w.roles[p].DeviceInvite?
      then HasDevice(s.store.file, w.roles[p].name, k) && HasDevice(s.net, w.roles[p].name, k)
      else HasEntry(s.store.file, p, k) && HasEntry(s.net, p, k)
  {
    var s := w.nodes[w.roles[p].node].s;
    assert StateOk(w.roles, w.answered, w.roles[p].node, s);
    if w.roles[p].DeviceInvite? {
      DeviceStays(s.store.file, s.net, w.roles[p].name, k);
    } else {
      EntryStays(s.store.file, s.net, p, k);
    }
  }

  lemma HeldIsOk(ok: Id -> bool, w: World, n: nat, e: Peer)
    requires Inv(ok, w) && n < |w.nodes| && Holds(w.nodes[n].s, e)
    ensures EntryOk(w.roles, w.answered, n, e)
  {
    var s := w.nodes[n].s;
    assert StateOk(w.roles, w.answered, n, s);
    if e in s.net.peers {
      var i :| 0 <= i < |s.net.peers| && s.net.peers[i] == e;
    } else {
      var i :| 0 <= i < |s.store.file.peers| && s.store.file.peers[i] == e;
    }
  }

  /** In every world: an entry, in memory or on disk, whose identity was minted to accept an
      invite of a daemon of ours has that invite's identity as its counterpart, and that
      daemon has the mirror on disk. */
  lemma EntryIsMirrored(ok: Id -> bool, w: World, n: nat, e: Peer)
    requires Inv(ok, w) && n < |w.nodes| && Holds(w.nodes[n].s, e) && Genuine(w.roles, e.mine)
    ensures w.roles[e.mine].node == n && e.peer == Some(w.roles[e.mine].invitedTo)
    ensures Invitation(w.roles, e.peer.value) && Recorded(w, e.peer.value, e.mine)
  {
    HeldIsOk(ok, w, n, e);
    var a := (e.peer.value, e.mine);
    assert Recorded(w, a.0, a.1);
  }

  /** Mirrored edges. Take an invite daemon `b` made for a peer, and an identity minted to
      accept it. Whenever any daemon holds an entry under that identity, in memory or on disk,
      whatever was lost and whoever crashed in between, it is the accepting daemon, the entry
      holds the invite's identity, and `b` holds the mirror entry in memory and on disk. */
  lemma MirroredEdges(ok: Id -> bool, ws: seq<World>, steps: seq<Step>,
                      i: nat, b: nat, make: Command, invite: Invite,
                      j: nat, a: nat, begin: Command, k: nat, n: nat, e: Peer)
    requires IsRun(ok, ws, steps) && i < j < k < |ws| && n < |ws[k].nodes|
    requires make.MakeInvite? && RanAt(ok, ws, steps, i, b, make, Issued(invite))
    requires begin.BeginAccept? && begin.invite == invite && Attempts(steps, j, a, begin)
    requires Holds(ws[k].nodes[n].s, e) && e.mine == begin.key
    ensures n == a && e.peer == Some(invite.identity)
    ensures b < |ws[k].nodes|
    ensures HasEntry(ws[k].nodes[b].s.store.file, invite.identity, begin.key)
    ensures HasEntry(ws[k].nodes[b].s.net, invite.identity, begin.key)
  {
    InviteIsKept(ok, ws, steps, i, b, make, invite, j);
    InviteIsKept(ok, ws, steps, i, b, make, invite, k);
    DiallerIsKept(ok, ws, steps, j, a, begin, k);
    RunsKeepInv(ok, ws, steps, k);
    EntryIsMirrored(ok, ws[k], n, e);
    RecordedTwice(ok, ws[k], invite.identity, begin.key);
  }

  /** A device invite taken up by `accept` instead enrols: whenever a daemon holds an entry
      under an identity minted to accept it, `b` has that device under that identity alone. */
  lemma AcceptedDeviceInviteEnrols(ok: Id -> bool, ws: seq<World>, steps: seq<Step>,
                                   i: nat, b: nat, make: Command, invite: Invite,
                                   j: nat, a: nat, begin: Command, k: nat, n: nat, e: Peer)
    requires IsRun(ok, ws, steps) && i < j < k < |ws| && n < |ws[k].nodes|
    requires make.MakeDeviceInvite? && RanAt(ok, ws, steps, i, b, make, Issued(invite))
    requires begin.BeginAccept? && begin.invite == invite && Attempts(steps, j, a, begin)
    requires Holds(ws[k].nodes[n].s, e) && e.mine == begin.key
    ensures n == a && e.peer == Some(invite.identity)
    ensures b < |ws[k].nodes|
    ensures HasDevice(ws[k].nodes[b].s.store.file, make.name, begin.key)
    ensures HasDevice(ws[k].nodes[b].s.net, make.name, begin.key)
  {
    InviteIsKept(ok, ws, steps, i, b, make, invite, j);
    InviteIsKept(ok, ws, steps, i, b, make, invite, k);
    DiallerIsKept(ok, ws, steps, j, a, begin, k);
    RunsKeepInv(ok, ws, steps, k);
    EntryIsMirrored(ok, ws[k], n, e);
    RecordedTwice(ok, ws[k], invite.identity, begin.key);
  }

  /** Committing an accept of an invite a daemon made: that daemon has welcomed this very
      identity under the invite's. */
  lemma CommitWasAnswered(ok: Id -> bool, w: World, n: nat, cmd: Command)
    requires Inv(ok, w) && n < |w.nodes| && cmd.CommitAccept? && Permitted(ok, w, n, cmd)
    requires cmd.invite in w.invites
    ensures (cmd.invite.identity, cmd.mine) in w.answered
  {
    assert FlightOk(w, cmd.mine, w.flights[cmd.mine]);
    var theirs :| (cmd.mine, Ok(theirs, cmd.addresses, cmd.dns)) in w.replies;
    var r := (cmd.mine, Ok(theirs, cmd.addresses, cmd.dns));
    assert ReplyOk(w, r.0, r.1);
  }

  /** Why a daemon must not be handed an invite that bears an identity it has yet to welcome: once
      another of its entries holds that identity, whoever dials with it is welcomed as known,
      whatever invite they answer, and so commits an entry of which there is no mirror. */
  lemma AwaitedIsNotMirrored(ok: Id -> bool, net: Network, caller: Id, on: string, hello: Hello)
    requires Sound(net) && hello.Invited? && PeerByKey(net, caller).Some? && !HasEntry(net, hello.invitedTo, caller)
    ensures
      var o := Execute(ok, net, Greet(caller, on, hello), true);
      o.reply.Welcomed? && o.reply.welcome.Ok? && !HasEntry(o.net, hello.invitedTo, caller)
  {
    KnownIsWelcomed(ok, net, caller, on, hello);
    GreetingTouchesOneEntry(net, caller, on, hello);
    NextNetGrows(net, Greet(caller, on, hello));
  }

  /** The mirror comes first: when an accept of the invite comes to commit, even if a crash cuts
      the commit short, `b` has the mirror entry already, and has it from there on. */
  lemma MirroredBeforeCommit(ok: Id -> bool, ws: seq<World>, steps: seq<Step>,
                             i: nat, b: nat, make: Command, invite: Invite, j: nat, n: nat, commit: Command, k: nat)
    requires IsRun(ok, ws, steps) && i < j <= k < |ws|
    requires make.MakeInvite? && RanAt(ok, ws, steps, i, b, make, Issued(invite))
    requires commit.CommitAccept? && commit.invite == invite && Attempts(steps, j, n, commit)
    ensures b < |ws[k].nodes|
    ensures HasEntry(ws[k].nodes[b].s.store.file, invite.identity, commit.mine)
    ensures HasEntry(ws[k].nodes[b].s.net, invite.identity, commit.mine)
  {
    InviteIsKept(ok, ws, steps, i, b, make, invite, j);
    InviteIsKept(ok, ws, steps, i, b, make, invite, k);
    RunsKeepInv(ok, ws, steps, j);
    AttemptIsPermitted(ok, ws, steps, j, n, commit);
    CommitWasAnswered(ok, ws[j], n, commit);
    RunsGoOn(ok, ws, steps, j, k);
    RunsKeepInv(ok, ws, steps, k);
    var a := (invite.identity, commit.mine);
    assert Recorded(ws[k], a.0, a.1);
    RecordedTwice(ok, ws[k], a.0, a.1);
  }

  // -- invites are spent once ------------------------------------------------------------------------

  /** `n` welcomes `caller` under its identity `p` at step `i`. */
  ghost predicate Welcomes(ok: Id -> bool, ws: seq<World>, steps: seq<Step>, i: nat, n: nat, p: Id, caller: Id)
    requires IsRun(ok, ws, steps)
  {
    && i < |steps| && steps[i].Run? && steps[i].n == n < |ws[i].nodes|
    && steps[i].cmd.Greet? && steps[i].cmd.caller == caller
    && var net := ws[i].nodes[n].s.net;
       && !Recognise(net, caller, steps[i].cmd.hello).Stranger?
       && AnsweredAs(net, caller, steps[i].cmd.hello) == p
       && Execute(ok, net, steps[i].cmd, steps[i].saves).reply.Welcomed?
  }

  lemma WelcomeIsAnswered(ok: Id -> bool, w: World, n: nat, cmd: Command, saves: bool)
    requires n < |w.nodes| && cmd.Greet? && !Recognise(w.nodes[n].s.net, cmd.caller, cmd.hello).Stranger?
    requires Execute(ok, w.nodes[n].s.net, cmd, saves).reply.Welcomed?
    ensures (AnsweredAs(w.nodes[n].s.net, cmd.caller, cmd.hello), cmd.caller) in Ran(ok, w, n, cmd, saves).answered
  {
    var s := w.nodes[n].s;
    var o := Execute(ok, s.net, cmd, saves);
    RepliesFit(ok, s.net, cmd, saves);
    ResultWelcomes(w, n, cmd, o, ApplyAll(s.store, o.writes));
  }

  lemma WelcomeIsNext(ok: Id -> bool, ws: seq<World>, steps: seq<Step>, i: nat, n: nat, p: Id, caller: Id)
    requires IsRun(ok, ws, steps) && Welcomes(ok, ws, steps, i, n, p, caller)
    ensures (p, caller) in ws[i + 1].answered
  {
    StepOf(ok, ws, steps, i);
    WelcomeIsAnswered(ok, ws[i], n, steps[i].cmd, steps[i].saves);
  }

  lemma WelcomeIsRemembered(ok: Id -> bool, ws: seq<World>, steps: seq<Step>, i: nat, n: nat, p: Id, caller: Id, k: nat)
    requires IsRun(ok, ws, steps) && Welcomes(ok, ws, steps, i, n, p, caller) && i < k < |ws|
    ensures (p, caller) in ws[k].answered
  {
    WelcomeIsNext(ok, ws, steps, i, n, p, caller);
    RunsGoOn(ok, ws, steps, i + 1, k);
  }

  lemma AnsweredOnce(ok: Id -> bool, ws: seq<World>, steps: seq<Step>, k: nat, p: Id, caller: Id, caller': Id)
    requires IsRun(ok, ws, steps) && k < |ws| && (p, caller) in ws[k].answered && (p, caller') in ws[k].answered
    ensures caller == caller'
  {
    RunsKeepInv(ok, ws, steps, k);
    SpentOnce(ok, ws[k], p, caller, caller');
  }

  /** Invites are spent once: over a whole run, crashes and restarts included, every welcome
      given under one identity goes to one dialling key. */
  lemma WelcomedOnce(ok: Id -> bool, ws: seq<World>, steps: seq<Step>, p: Id,
                     i: nat, n: nat, caller: Id, i': nat, n': nat, caller': Id)
    requires IsRun(ok, ws, steps)
    requires Welcomes(ok, ws, steps, i, n, p, caller) && Welcomes(ok, ws, steps, i', n', p, caller')
    ensures caller == caller'
  {
    var k := |steps|;
    WelcomeIsRemembered(ok, ws, steps, i, n, p, caller, k);
    WelcomeIsRemembered(ok, ws, steps, i', n', p, caller', k);
    AnsweredOnce(ok, ws, steps, k, p, caller, caller');
  }

  // -- identities -----------------------------------------------------------------------------------

  /** One identity per relationship: an identity is `mine` in at most one entry of one
      daemon, and no daemon listens on it. */
  lemma OneIdentityPerRelationship(ok: Id -> bool, ws: seq<World>, steps: seq<Step>, k: nat,
                                   n: nat, i: nat, n': nat, i': nat)
    requires IsRun(ok, ws, steps) && k < |ws| && n < |ws[k].nodes| && n' < |ws[k].nodes|
    requires i < |ws[k].nodes[n].s.net.peers|
    ensures i' < |ws[k].nodes[n'].s.net.peers|
            && ws[k].nodes[n'].s.net.peers[i'].mine == ws[k].nodes[n].s.net.peers[i].mine ==>
              n == n' && i == i'
    ensures i' < |ws[k].nodes[n'].s.net.handshakeKeys| ==>
              ws[k].nodes[n'].s.net.handshakeKeys[i'].key != ws[k].nodes[n].s.net.peers[i].mine
  {
    var w := ws[k];
    RunsKeepInv(ok, ws, steps, k);
    assert StateOk(w.roles, w.answered, n, w.nodes[n].s) && StateOk(w.roles, w.answered, n', w.nodes[n'].s);
    assert EntryOk(w.roles, w.answered, n, w.nodes[n].s.net.peers[i]);
    if i' < |w.nodes[n'].s.net.peers| {
      assert EntryOk(w.roles, w.answered, n', w.nodes[n'].s.net.peers[i']);
    }
  }

  // -- known or unknown ----------------------------------------------------------------------------

  /** Nobody accepts an invite that no daemon made. */
  ghost predicate HonestInvites(ws: seq<World>, steps: seq<Step>)
    requires |ws| == |steps| + 1
  {
    forall i :: 0 <= i < |steps| && (steps[i].Run? || steps[i].CrashDuring?) && steps[i].cmd.BeginAccept? ==>
      steps[i].cmd.invite in ws[i].invites
  }

  ghost predicate NoForgery(roles: Roles) {
    forall k :: k in roles && roles[k].Dialler? ==> roles[k].genuine
  }

  lemma ResultForgesNothing(w: World, n: nat, cmd: Command, o: Outcome, store: Store)
    requires n < |w.nodes| && ReplyFits(w.nodes[n].s.net, cmd, o) && NoForgery(w.roles)
    requires cmd.BeginAccept? ==> cmd.invite in w.invites
    ensures NoForgery(RolesAfter(w, n, cmd)) && NoForgery(Resulting(w, n, cmd, o, store).roles)
  {
  }

  lemma StepForgesNothing(ok: Id -> bool, w: World, w': World, step: Step)
    requires NextBy(ok, w, w', step) && NoForgery(w.roles)
    requires (step.Run? || step.CrashDuring?) && step.cmd.BeginAccept? ==> step.cmd.invite in w.invites
    ensures NoForgery(w'.roles)
  {
    if step.Run? || step.CrashDuring? {
      var s := w.nodes[step.n].s;
      var o := Execute(ok, s.net, step.cmd, step.saves);
      RepliesFit(ok, s.net, step.cmd, step.saves);
      ResultForgesNothing(w, step.n, step.cmd, o, ApplyAll(s.store, o.writes));
    }
  }

  lemma WorldForgesNothing(ok: Id -> bool, ws: seq<World>, steps: seq<Step>, i: nat)
    requires IsRun(ok, ws, steps) && HonestInvites(ws, steps) && i < |steps| && NoForgery(ws[i].roles)
    ensures NoForgery(ws[i + 1].roles)
  {
    StepOf(ok, ws, steps, i);
    StepForgesNothing(ok, ws[i], ws[i + 1], steps[i]);
  }

  lemma RunForgesNothing(ok: Id -> bool, ws: seq<World>, steps: seq<Step>, i: nat)
    requires IsRun(ok, ws, steps) && HonestInvites(ws, steps) && i < |ws|
    ensures NoForgery(ws[i].roles)
  {
    forall k | 0 <= k < i && NoForgery(ws[k].roles) ensures NoForgery(ws[k + 1].roles) {
      WorldForgesNothing(ok, ws, steps, k);
    }
    Onwards(ws, (w: World) => NoForgery(w.roles), 0, i);
  }

  /** Two entries of a daemon hold one counterpart only if one of them was made by accepting an
      invite that no daemon of ours made. */
  lemma SharedCounterpartIsForged(ok: Id -> bool, ws: seq<World>, steps: seq<Step>, k: nat, n: nat, i: nat, j: nat)
    requires IsRun(ok, ws, steps) && k < |ws| && n < |ws[k].nodes|
    requires i < |ws[k].nodes[n].s.net.peers| && j < |ws[k].nodes[n].s.net.peers| && i != j
    requires ws[k].nodes[n].s.net.peers[i].peer.Some?
    requires ws[k].nodes[n].s.net.peers[i].peer == ws[k].nodes[n].s.net.peers[j].peer
    ensures Forged(ws[k].roles, ws[k].nodes[n].s.net.peers[i]) || Forged(ws[k].roles, ws[k].nodes[n].s.net.peers[j])
  {
    RunsKeepInv(ok, ws, steps, k);
    assert StateOk(ws[k].roles, ws[k].answered, n, ws[k].nodes[n].s);
  }

  /** The known/unknown split, which `check` never tests: an entry made by inviting, or by
      accepting an invite of a daemon of ours, is the one a key finds exactly if it holds the
      key and no entry made from an outsider's invite and holding it comes before. */
  lemma KnownKeyFindsItsEntry(ok: Id -> bool, ws: seq<World>, steps: seq<Step>, k: nat, n: nat, i: nat, key: Id)
    requires IsRun(ok, ws, steps) && k < |ws| && n < |ws[k].nodes|
    requires i < |ws[k].nodes[n].s.net.peers| && !Forged(ws[k].roles, ws[k].nodes[n].s.net.peers[i])
    ensures
      var peers := ws[k].nodes[n].s.net.peers;
      PeerByKey(ws[k].nodes[n].s.net, key) == Some(i) <==>
        peers[i].peer == Some(key) &&
        forall j :: 0 <= j < i && Forged(ws[k].roles, peers[j]) ==> peers[j].peer != Some(key)
  {
    RunsKeepInv(ok, ws, steps, k);
    assert StateOk(ws[k].roles, ws[k].answered, n, ws[k].nodes[n].s);
  }

  /** So on runs where only daemons' invites are accepted it is a function: an entry holds a
      dialling key exactly if looking that key up finds that entry. */
  lemma KnownIsAFunction(ok: Id -> bool, ws: seq<World>, steps: seq<Step>, k: nat, n: nat, i: nat, key: Id)
    requires IsRun(ok, ws, steps) && HonestInvites(ws, steps) && k < |ws| && n < |ws[k].nodes|
    requires i < |ws[k].nodes[n].s.net.peers|
    ensures ws[k].nodes[n].s.net.peers[i].peer == Some(key) <==> PeerByKey(ws[k].nodes[n].s.net, key) == Some(i)
  {
    RunForgesNothing(ok, ws, steps, k);
    KnownKeyFindsItsEntry(ok, ws, steps, k, n, i, key);
  }
}
