/** When a daemon can start again, over whole runs. Its file is spoilt exactly when a command
    that leaves the memory unfit for the check is followed, before the daemon stops, by one
    that writes the memory out without a check. */
module Starting {
  import opened Wrappers
  import opened Proto
  import opened Network
  import opened Commands
  import opened World
  import opened Invariant
  import opened Preservation
  import opened Edges
  import opened Restart

  // -- what is written -------------------------------------------------------------------------

  /** The first `writes` writes of the command put the changed net into the file: it is one that
      saves, it may write, it passes the check or is not checked, and nothing cuts it short. */
  ghost predicate Written(ok: Id -> bool, net: Network, cmd: Command, saves: bool, writes: nat) {
    && !TurnedAway(net, cmd) && !cmd.BeginAccept? && saves
    && (Checked(net, cmd) ==> Valid(ok, NextNet(net, cmd)))
    && writes == |Execute(ok, net, cmd, saves).writes|
  }

  /** What `CrashPoints` leaves open: after any number of writes, the file is the changed net
      exactly if all of them were made and the last was the rename. */
  lemma FileLeft(ok: Id -> bool, net: Network, cmd: Command, saves: bool, store: Store, writes: nat)
    requires writes <= |Execute(ok, net, cmd, saves).writes|
    ensures Stopped(ok, net, cmd, saves, store, writes).file
            == if Written(ok, net, cmd, saves, writes) then NextNet(net, cmd) else store.file
  {
    var o := Execute(ok, net, cmd, saves);
    var rest := SaveWrites(o.net, saves);
    NetOf(ok, net, cmd, saves);
    if o.writes == [] {
    } else if Mints(cmd) {
      MintedFile(store, cmd.key, o, saves, writes);
    } else {
      assert o.writes == rest;
      StoppedSave(store, o.net, saves, writes);
    }
  }

  lemma MintedFile(store: Store, key: Id, o: Outcome, saves: bool, n: nat)
    requires n <= |o.writes| && (o.writes == [KeyFile(key)] || o.writes == [KeyFile(key)] + SaveWrites(o.net, saves))
    ensures ApplyAll(store, o.writes[..n]).file == if n == 4 then o.net else store.file
  {
    if n > 0 {
      var rest := o.writes[1..];
      assert o.writes[..n][0] == KeyFile(key) && o.writes[..n][1..] == rest[..n - 1];
      if |o.writes| == 1 {
        assert rest[..n - 1] == [];
      } else {
        assert rest == SaveWrites(o.net, saves);
        StoppedSave(Apply(store, KeyFile(key)), o.net, saves, n - 1);
      }
    }
  }

  /** The step runs a command on daemon `n`, to its end or not. */
  predicate On(step: Step, n: nat) {
    (step.Run? || step.CrashDuring?) && step.n == n
  }

  ghost function WritesMade(ok: Id -> bool, net: Network, step: Step): nat
    requires step.Run? || step.CrashDuring?
  {
    if step.Run? then |Execute(ok, net, step.cmd, step.saves).writes| else step.writes
  }

  /** What a step leaves daemon `n` with on disk and in memory. */
  ghost predicate Left(ok: Id -> bool, s: State, s': State, step: Step, n: nat) {
    if On(step, n) then
      && s'.store.file == (if Written(ok, s.net, step.cmd, step.saves, WritesMade(ok, s.net, step))
                           then NextNet(s.net, step.cmd) else s.store.file)
      && s'.net == if step.Run? then NextNet(s.net, step.cmd) else s'.store.file
    else s'.store.file == s.store.file && s'.net == if Alive(step, n) then s.net else s.store.file
  }

  lemma RunLeft(ok: Id -> bool, w: World, n: nat, cmd: Command, saves: bool)
    requires n < |w.nodes|
    ensures Left(ok, w.nodes[n].s, Ran(ok, w, n, cmd, saves).nodes[n].s, Run(n, cmd, saves), n)
    ensures forall m :: 0 <= m < |w.nodes| && m != n ==> Ran(ok, w, n, cmd, saves).nodes[m] == w.nodes[m]
  {
    var s := w.nodes[n].s;
    var o := Execute(ok, s.net, cmd, saves);
    FileLeft(ok, s.net, cmd, saves, s.store, |o.writes|);
    assert o.writes[..|o.writes|] == o.writes;
    NetOf(ok, s.net, cmd, saves);
    RepliesFit(ok, s.net, cmd, saves);
    ResultNodes(w, n, cmd, o, ApplyAll(s.store, o.writes));
  }

  lemma StepLeaves(ok: Id -> bool, w: World, w': World, step: Step, n: nat)
    requires NextBy(ok, w, w', step) && n < |w.nodes|
    ensures n < |w'.nodes| && Left(ok, w.nodes[n].s, w'.nodes[n].s, step, n)
  {
    if step.Run? {
      RunLeft(ok, w, step.n, step.cmd, step.saves);
    } else if step.CrashDuring? {
      var s := w.nodes[step.n].s;
      FileLeft(ok, s.net, step.cmd, step.saves, s.store, step.writes);
    } else {
      QuietStepGrows(ok, w, w', step, n);
    }
  }

  // -- how a net can fail the check ------------------------------------------------------------

  /** What a caller's dial leaves in a net, whatever the caller says: it arrived on an address
      of ours, with a key that decodes. */
  ghost predicate CallersOk(ok: Id -> bool, net: Network) {
    && (forall i :: 0 <= i < |net.peers| && net.peers[i].reachedOn.Some? ==>
          NamesHandshakeKey(net.handshakeKeys, net.peers[i].reachedOn.value))
    && (forall i :: 0 <= i < |net.devices| ==> AllDecode(ok, net.devices[i].keys))
  }

  ghost predicate SharesAlias(net: Network) {
    exists i, j :: 0 <= i < j < |net.peers| && net.peers[i].alias == net.peers[j].alias
  }

  /** An entry with a counterpart, what is known of which does not decode. */
  ghost predicate Undecodable(ok: Id -> bool, net: Network) {
    exists i :: 0 <= i < |net.peers| && net.peers[i].peer.Some?
                && !(ok(net.peers[i].peer.value) && AllDecode(ok, net.peers[i].addresses))
  }

  /** Of all the faults the check looks for, only these can occur. */
  lemma FailsOnlyBy(ok: Id -> bool, w: World, n: nat, net: Network)
    requires RolesOk(ok, w) && Tidy(w.roles, w.answered, n, net) && CallersOk(ok, net)
    ensures Valid(ok, net) <==> !SharesAlias(net) && !Undecodable(ok, net)
  {
    if Valid(ok, net) {
      forall i | 0 <= i < |net.peers| ensures PeerValid(ok, net.handshakeKeys, net.peers[i]) {
      }
    }
    if !SharesAlias(net) && !Undecodable(ok, net) {
      forall i | 0 <= i < |net.peers| ensures PeerValid(ok, net.handshakeKeys, net.peers[i]) {
        assert EntryOk(w.roles, w.answered, n, net.peers[i]);
      }
      assert forall i :: 0 <= i < |net.devices| ==> DeviceValid(ok, net.devices[i]);
    }
  }

  lemma CallersStayOk(ok: Id -> bool, net: Network, cmd: Command)
    requires Sound(net) && CallersOk(ok, net)
    requires cmd.Greet? ==> ok(cmd.caller) && NamesHandshakeKey(net.handshakeKeys, cmd.on)
    ensures CallersOk(ok, NextNet(net, cmd))
  {
    if cmd.Greet? && !TurnedAway(net, cmd) {
      GreetingTouchesOneEntry(net, cmd.caller, cmd.on, cmd.hello);
    } else if cmd.NewAddress? && !TurnedAway(net, cmd) {
      NamesMore(net, cmd);
    }
  }

  lemma NamesMore(net: Network, cmd: Command)
    requires cmd.NewAddress? && !TurnedAway(net, cmd)
    ensures forall alias :: NamesHandshakeKey(net.handshakeKeys, alias) ==>
              NamesHandshakeKey(NextNet(net, cmd).handshakeKeys, alias)
  {
    var keys := NextNet(net, cmd).handshakeKeys;
    assert forall i :: 0 <= i < |net.handshakeKeys| ==> keys[i] == net.handshakeKeys[i];
  }

  /** A fault stays: no command takes an alias away, or changes an entry's counterpart or the
      addresses it came with. */
  lemma FaultsStay(ok: Id -> bool, net: Network, cmd: Command)
    requires Sound(net)
    ensures SharesAlias(net) ==> SharesAlias(NextNet(net, cmd))
    ensures Undecodable(ok, net) ==> Undecodable(ok, NextNet(net, cmd))
  {
    var net' := NextNet(net, cmd);
    EntriesStay(net, cmd);
    if SharesAlias(net) {
      var i, j :| 0 <= i < j < |net.peers| && net.peers[i].alias == net.peers[j].alias;
      assert net'.peers[i].alias == net'.peers[j].alias;
    }
    if Undecodable(ok, net) {
      var i :| 0 <= i < |net.peers| && net.peers[i].peer.Some?
               && !(ok(net.peers[i].peer.value) && AllDecode(ok, net.peers[i].addresses));
      assert net'.peers[i].addresses == net.peers[i].addresses;
    }
  }

  lemma EntriesStay(net: Network, cmd: Command)
    requires Sound(net)
    ensures var net' := NextNet(net, cmd);
      && |net.peers| <= |net'.peers|
      && forall i :: 0 <= i < |net.peers| ==>
           && net'.peers[i].alias == net.peers[i].alias
           && (net.peers[i].peer.Some? ==>
                 net'.peers[i].peer == net.peers[i].peer && net'.peers[i].addresses == net.peers[i].addresses)
  {
    if cmd.Greet? && !TurnedAway(net, cmd) {
      GreetingTouchesOneEntry(net, cmd.caller, cmd.on, cmd.hello);
    }
  }

  // -- over runs: what callers leave -------------------------------------------------------------

  ghost predicate ArrivedOk(ok: Id -> bool, w: World) {
    forall n :: 0 <= n < |w.nodes| ==> CallersOk(ok, w.nodes[n].s.net) && CallersOk(ok, w.nodes[n].s.store.file)
  }

  lemma CommandCallersOk(ok: Id -> bool, w: World, n: nat, cmd: Command)
    requires Inv(ok, w) && n < |w.nodes| && Permitted(ok, w, n, cmd) && CallersOk(ok, w.nodes[n].s.net)
    ensures CallersOk(ok, NextNet(w.nodes[n].s.net, cmd))
  {
    assert StateOk(w.roles, w.answered, n, w.nodes[n].s);
    if cmd.Greet? {
      BoundAliasIsNamed(ok, w, n, cmd);
    }
    CallersStayOk(ok, w.nodes[n].s.net, cmd);
  }

  lemma StepKeepsArrived(ok: Id -> bool, w: World, w': World, step: Step)
    requires Inv(ok, w) && ArrivedOk(ok, w) && NextBy(ok, w, w', step)
    ensures ArrivedOk(ok, w')
  {
    StepsGoOn(ok, w, w', step);
    forall n | 0 <= n < |w'.nodes|
      ensures CallersOk(ok, w'.nodes[n].s.net) && CallersOk(ok, w'.nodes[n].s.store.file)
    {
      StepLeaves(ok, w, w', step, n);
      if On(step, n) {
        CommandCallersOk(ok, w, n, step.cmd);
      }
    }
  }

  lemma InitArrived(ok: Id -> bool, w: World)
    requires Init(ok, w)
    ensures ArrivedOk(ok, w)
  {
    forall n | 0 <= n < |w.nodes|
      ensures CallersOk(ok, w.nodes[n].s.net) && CallersOk(ok, w.nodes[n].s.store.file)
    {
      assert FreshHome(ok, w, n);
    }
  }

  lemma RunsKeepArrived(ok: Id -> bool, ws: seq<World>, steps: seq<Step>, i: nat)
    requires IsRun(ok, ws, steps) && i < |ws|
    ensures ArrivedOk(ok, ws[i])
  {
    InitArrived(ok, ws[0]);
    forall k | 0 <= k < i && ArrivedOk(ok, ws[k]) ensures ArrivedOk(ok, ws[k + 1]) {
      RunsKeepInv(ok, ws, steps, k);
      StepOf(ok, ws, steps, k);
      StepKeepsArrived(ok, ws[k], ws[k + 1], steps[k]);
    }
    Onwards(ws, w => ArrivedOk(ok, w), 0, i);
  }

  /** Of the ten faults the check looks for, only three can ever be in a daemon's memory or in
      its file: an alias of two entries, and a counterpart or an address that does not decode. */
  lemma FaultsOfRuns(ok: Id -> bool, ws: seq<World>, steps: seq<Step>, k: nat, n: nat)
    requires IsRun(ok, ws, steps) && k < |ws| && n < |ws[k].nodes|
    ensures var net := ws[k].nodes[n].s.net;
      Valid(ok, net) <==> !SharesAlias(net) && !Undecodable(ok, net)
    ensures var file := ws[k].nodes[n].s.store.file;
      Valid(ok, file) <==> !SharesAlias(file) && !Undecodable(ok, file)
  {
    RunsKeepInv(ok, ws, steps, k);
    RunsKeepArrived(ok, ws, steps, k);
    assert StateOk(ws[k].roles, ws[k].answered, n, ws[k].nodes[n].s);
    FailsOnlyBy(ok, ws[k], n, ws[k].nodes[n].s.net);
    FailsOnlyBy(ok, ws[k], n, ws[k].nodes[n].s.store.file);
  }

  // -- the file ------------------------------------------------------------------------------------

  /** A new address, and a greeting by a caller some entry holds. */
  predicate SkipsCheck(net: Network, cmd: Command) {
    match cmd
    case NewAddress(alias, _) => !NamesHandshakeKey(net.handshakeKeys, alias)
    case Greet(caller, _, _) => PeerByKey(net, caller).Some?
    case _ => false
  }

  lemma SkipsCheckIff(net: Network, cmd: Command)
    ensures SkipsCheck(net, cmd) <==> !TurnedAway(net, cmd) && !Checked(net, cmd)
  {
    if cmd.NewAddress? {
      assert NamesHandshakeKey(net.handshakeKeys, cmd.alias) <==> HandshakeByAlias(net, cmd.alias).Some?;
    }
  }

  /** The step writes daemon `n`'s memory out without a check: a known caller greets, or an
      address is added, and nothing cuts that short. */
  ghost predicate WritesUnchecked(ok: Id -> bool, w: World, step: Step, n: nat) {
    && On(step, n) && n < |w.nodes| && step.saves
    && SkipsCheck(w.nodes[n].s.net, step.cmd)
    && (step.CrashDuring? ==> step.writes == |Execute(ok, w.nodes[n].s.net, step.cmd, step.saves).writes|)
  }

  /** And the memory would not have passed the check. */
  ghost predicate Spoils(ok: Id -> bool, w: World, step: Step, n: nat) {
    WritesUnchecked(ok, w, step, n) && !Valid(ok, w.nodes[n].s.net)
  }

  /** A command that is not checked neither spoils a net nor mends it. */
  lemma UncheckedValidIff(ok: Id -> bool, w: World, n: nat, cmd: Command)
    requires Inv(ok, w) && ArrivedOk(ok, w) && n < |w.nodes| && Permitted(ok, w, n, cmd)
    requires !Checked(w.nodes[n].s.net, cmd)
    ensures Valid(ok, NextNet(w.nodes[n].s.net, cmd)) <==> Valid(ok, w.nodes[n].s.net)
  {
    var net := w.nodes[n].s.net;
    assert StateOk(w.roles, w.answered, n, w.nodes[n].s);
    if Valid(ok, net) {
      if cmd.Greet? {
        BoundAliasIsNamed(ok, w, n, cmd);
      }
      NextNetValidIff(ok, net, cmd);
    } else {
      FailsOnlyBy(ok, w, n, net);
      InvalidStays(ok, w, n, cmd);
    }
  }

  /** Nor does any other command mend one. */
  lemma InvalidStays(ok: Id -> bool, w: World, n: nat, cmd: Command)
    requires Inv(ok, w) && ArrivedOk(ok, w) && n < |w.nodes| && !Valid(ok, w.nodes[n].s.net)
    ensures !Valid(ok, NextNet(w.nodes[n].s.net, cmd))
  {
    var net := w.nodes[n].s.net;
    assert StateOk(w.roles, w.answered, n, w.nodes[n].s);
    FailsOnlyBy(ok, w, n, net);
    FaultsStay(ok, net, cmd);
  }

  /** A step keeps a file that passes the check so exactly unless it spoils it. */
  lemma FileValidIff(ok: Id -> bool, w: World, w': World, step: Step, n: nat)
    requires Inv(ok, w) && ArrivedOk(ok, w) && NextBy(ok, w, w', step) && n < |w.nodes|
    requires Valid(ok, w.nodes[n].s.store.file)
    ensures n < |w'.nodes| && (Valid(ok, w'.nodes[n].s.store.file) <==> !Spoils(ok, w, step, n))
  {
    StepLeaves(ok, w, w', step, n);
    if On(step, n) {
      var net := w.nodes[n].s.net;
      SkipsCheckIff(net, step.cmd);
      if SkipsCheck(net, step.cmd) {
        UncheckedValidIff(ok, w, n, step.cmd);
      }
      WrittenValidIff(ok, net, w.nodes[n].s.store.file, step);
    }
  }

  lemma WrittenValidIff(ok: Id -> bool, net: Network, file: Network, step: Step)
    requires (step.Run? || step.CrashDuring?) && Valid(ok, file)
    requires SkipsCheck(net, step.cmd) ==> (Valid(ok, NextNet(net, step.cmd)) <==> Valid(ok, net))
    ensures
      var writes := WritesMade(ok, net, step);
      var file' := if Written(ok, net, step.cmd, step.saves, writes) then NextNet(net, step.cmd) else file;
      Valid(ok, file') <==>
        !(SkipsCheck(net, step.cmd) && step.saves && writes == |Execute(ok, net, step.cmd, step.saves).writes|
          && !Valid(ok, net))
  {
    SkipsCheckIff(net, step.cmd);
  }

  lemma StartsIfValid(ok: Id -> bool, w: World, n: nat)
    requires Inv(ok, w) && n < |w.nodes|
    ensures Starts(ok, w.nodes[n].s.store) <==> Valid(ok, w.nodes[n].s.store.file)
  {
    assert StateOk(w.roles, w.answered, n, w.nodes[n].s);
  }

  /** Daemon `n` could start from what is on disk in world `i`. */
  ghost predicate CanStart(ok: Id -> bool, ws: seq<World>, i: nat, n: nat)
    requires i < |ws|
  {
    n < |ws[i].nodes| && Starts(ok, ws[i].nodes[n].s.store)
  }

  lemma NextStartsIff(ok: Id -> bool, ws: seq<World>, steps: seq<Step>, i: nat, n: nat)
    requires IsRun(ok, ws, steps) && i < |steps| && CanStart(ok, ws, i, n)
    ensures CanStart(ok, ws, i + 1, n) <==> !Spoils(ok, ws[i], steps[i], n)
  {
    RunsKeepInv(ok, ws, steps, i);
    RunsKeepInv(ok, ws, steps, i + 1);
    RunsKeepArrived(ok, ws, steps, i);
    StepOf(ok, ws, steps, i);
    StartsIfValid(ok, ws[i], n);
    FileValidIff(ok, ws[i], ws[i + 1], steps[i], n);
    StartsIfValid(ok, ws[i + 1], n);
  }

  lemma StartsAtFirst(ok: Id -> bool, ws: seq<World>, steps: seq<Step>, n: nat)
    requires IsRun(ok, ws, steps) && n < |ws[0].nodes|
    ensures CanStart(ok, ws, 0, n)
  {
    assert FreshHome(ok, ws[0], n);
  }

  /** Crash consistency, exactly. At every point of a run so far, inside a command or between two,
      daemon `n` can start from what is on disk if, and only if, no step has written a memory that
      would not pass the check without checking it. */
  lemma StartsIff(ok: Id -> bool, ws: seq<World>, steps: seq<Step>, k: nat, n: nat)
    requires IsRun(ok, ws, steps) && k < |ws| && n < |ws[0].nodes|
    ensures (forall i :: 0 <= i <= k ==> CanStart(ok, ws, i, n)) <==>
            (forall i :: 0 <= i < k ==> !Spoils(ok, ws[i], steps[i], n))
  {
    if forall i :: 0 <= i <= k ==> CanStart(ok, ws, i, n) {
      forall i | 0 <= i < k ensures !Spoils(ok, ws[i], steps[i], n) {
        assert CanStart(ok, ws, i, n) && CanStart(ok, ws, i + 1, n);
        NextStartsIff(ok, ws, steps, i, n);
      }
    }
    if forall i :: 0 <= i < k ==> !Spoils(ok, ws[i], steps[i], n) {
      forall i | 0 <= i <= k ensures CanStart(ok, ws, i, n) {
        StartsSoFar(ok, ws, steps, i, n);
      }
    }
  }

  lemma {:induction false} StartsSoFar(ok: Id -> bool, ws: seq<World>, steps: seq<Step>, k: nat, n: nat)
    requires IsRun(ok, ws, steps) && k < |ws| && n < |ws[0].nodes|
    requires forall i :: 0 <= i < k ==> !Spoils(ok, ws[i], steps[i], n)
    ensures CanStart(ok, ws, k, n)
  {
    if k == 0 {
      StartsAtFirst(ok, ws, steps, n);
    } else {
      StartsSoFar(ok, ws, steps, k - 1, n);
      NextStartsIff(ok, ws, steps, k - 1, n);
    }
  }

  // -- the memory ------------------------------------------------------------------------------------

  /** The step runs to its end a command that is not acceptable. */
  ghost predicate Soils(ok: Id -> bool, w: World, step: Step, n: nat) {
    step.Run? && step.n == n && n < |w.nodes| && !Acceptable(ok, w.nodes[n].s.net, step.cmd)
  }

  /** Which commands those are in a world: a caller's pairing with addresses that do not decode, and
      an accept whose alias was claimed while it was in flight or whose counterpart or addresses do
      not decode. */
  lemma AcceptableIff(ok: Id -> bool, w: World, n: nat, cmd: Command)
    requires Inv(ok, w) && n < |w.nodes| && Permitted(ok, w, n, cmd)
    ensures
      var net := w.nodes[n].s.net;
      Acceptable(ok, net, cmd) <==>
        match cmd
        case Greet(caller, _, hello) => Recognise(net, caller, hello).Pairs? ==> AllDecode(ok, hello.addresses)
        case CommitAccept(alias, invite, _, addresses, _) =>
          PeerByAlias(net, alias).None? && ok(invite.identity) && AllDecode(ok, addresses)
        case _ => true
  {
    var s := w.nodes[n].s;
    assert StateOk(w.roles, w.answered, n, s);
    if cmd.Greet? {
      BoundAliasIsNamed(ok, w, n, cmd);
    } else if cmd.CommitAccept? {
      assert FlightOk(w, cmd.mine, w.flights[cmd.mine]);
    } else if cmd.MakeInvite? {
      forall i | 0 <= i < |s.net.peers| ensures s.net.peers[i].mine != cmd.key {
        assert EntryOk(w.roles, w.answered, n, s.net.peers[i]);
      }
    }
  }

  /** Daemon `n` is neither stopped nor started from world `i` to world `j`. */
  predicate AliveFrom(steps: seq<Step>, i: nat, j: nat, n: nat)
    requires j <= |steps|
  {
    forall x :: i <= x < j ==> Alive(steps[x], n)
  }

  /** Step `j` ran a command that is not acceptable, and the daemon has not stopped since. */
  ghost predicate SoiledBy(ok: Id -> bool, ws: seq<World>, steps: seq<Step>, j: int, k: nat, n: nat)
    requires |ws| == |steps| + 1 && k < |ws|
  {
    0 <= j < k && Soils(ok, ws[j], steps[j], n) && AliveFrom(steps, j, k, n)
  }

  /** Some command it has run since it last started was not acceptable. */
  ghost predicate Soiled(ok: Id -> bool, ws: seq<World>, steps: seq<Step>, k: nat, n: nat)
    requires |ws| == |steps| + 1 && k < |ws|
  {
    exists j :: SoiledBy(ok, ws, steps, j, k, n)
  }

  ghost predicate FitInMemory(ok: Id -> bool, ws: seq<World>, i: nat, n: nat)
    requires i < |ws|
  {
    n < |ws[i].nodes| && ws[i].nodes[n].up && Valid(ok, ws[i].nodes[n].s.net)
  }

  /** A step that leaves a daemon running leaves its memory fit exactly if it was and the step ran no
      command on it that is not acceptable. */
  lemma NextFitIff(ok: Id -> bool, ws: seq<World>, steps: seq<Step>, i: nat, n: nat)
    requires IsRun(ok, ws, steps) && i < |steps| && n < |ws[i].nodes| && Alive(steps[i], n)
    ensures FitInMemory(ok, ws, i + 1, n) <==> FitInMemory(ok, ws, i, n) && !Soils(ok, ws[i], steps[i], n)
  {
    var w := ws[i];
    RunsKeepInv(ok, ws, steps, i);
    RunsKeepArrived(ok, ws, steps, i);
    StepOf(ok, ws, steps, i);
    StepLeaves(ok, w, ws[i + 1], steps[i], n);
    StaysUp(ok, w, ws[i + 1], steps[i], n);
    if On(steps[i], n) {
      assert StateOk(w.roles, w.answered, n, w.nodes[n].s);
      if Valid(ok, w.nodes[n].s.net) {
        NextNetValidIff(ok, w.nodes[n].s.net, steps[i].cmd);
      } else {
        InvalidStays(ok, w, n, steps[i].cmd);
      }
    }
  }

  lemma FitAtFirst(ok: Id -> bool, ws: seq<World>, steps: seq<Step>, n: nat)
    requires IsRun(ok, ws, steps) && n < |ws[0].nodes|
    ensures FitInMemory(ok, ws, 0, n) && !Soiled(ok, ws, steps, 0, n)
  {
    assert FreshHome(ok, ws[0], n);
  }

  lemma WasUp(ok: Id -> bool, ws: seq<World>, steps: seq<Step>, i: nat, n: nat)
    requires IsRun(ok, ws, steps) && i < |steps| && n < |ws[i + 1].nodes|
    ensures n < |ws[i].nodes| && (Alive(steps[i], n) ==> ws[i].nodes[n].up == ws[i + 1].nodes[n].up)
  {
    WorldGoesOn(ok, ws, steps, i);
    if Alive(steps[i], n) {
      StepOf(ok, ws, steps, i);
      StaysUp(ok, ws[i], ws[i + 1], steps[i], n);
    }
  }

  lemma FitOnStarting(ok: Id -> bool, ws: seq<World>, steps: seq<Step>, i: nat, n: nat)
    requires IsRun(ok, ws, steps) && i < |steps| && n < |ws[i].nodes| && !Alive(steps[i], n)
    requires n < |ws[i + 1].nodes| && ws[i + 1].nodes[n].up
    ensures FitInMemory(ok, ws, i + 1, n) && !Soiled(ok, ws, steps, i + 1, n)
  {
    StepOf(ok, ws, steps, i);
    StopOrStart(ok, ws[i], ws[i + 1], steps[i], n);
    var k := i + 1;
    forall j ensures !SoiledBy(ok, ws, steps, j, k, n) {
      assert !Alive(steps[i], n);
    }
  }

  /** What made the memory of a running daemon unfit for the check is a command it ran since it last
      started, and any that is not acceptable does. */
  lemma {:induction false} FitUnlessSoiled(ok: Id -> bool, ws: seq<World>, steps: seq<Step>, k: nat, n: nat)
    requires IsRun(ok, ws, steps) && k < |ws| && n < |ws[k].nodes| && ws[k].nodes[n].up
    ensures FitInMemory(ok, ws, k, n) <==> !Soiled(ok, ws, steps, k, n)
  {
    if k == 0 {
      FitAtFirst(ok, ws, steps, n);
    } else {
      WasUp(ok, ws, steps, k - 1, n);
      if Alive(steps[k - 1], n) {
        FitUnlessSoiled(ok, ws, steps, k - 1, n);
        NextFitIff(ok, ws, steps, k - 1, n);
        SoiledGoesOn(ok, ws, steps, k - 1, n);
      } else {
        FitOnStarting(ok, ws, steps, k - 1, n);
      }
    }
  }

  lemma SoiledGoesOn(ok: Id -> bool, ws: seq<World>, steps: seq<Step>, k: nat, n: nat)
    requires |ws| == |steps| + 1 && k < |steps| && Alive(steps[k], n)
    ensures Soiled(ok, ws, steps, k + 1, n) <==> Soiled(ok, ws, steps, k, n) || Soils(ok, ws[k], steps[k], n)
  {
    if Soiled(ok, ws, steps, k, n) {
      var j :| SoiledBy(ok, ws, steps, j, k, n);
      assert SoiledBy(ok, ws, steps, j, k + 1, n);
    }
    if Soils(ok, ws[k], steps[k], n) {
      assert SoiledBy(ok, ws, steps, k, k + 1, n);
    }
    if Soiled(ok, ws, steps, k + 1, n) {
      var j :| SoiledBy(ok, ws, steps, j, k + 1, n);
      assert j == k || SoiledBy(ok, ws, steps, j, k, n);
    }
  }

  // -- together --------------------------------------------------------------------------------------

  lemma SpoilsIff(ok: Id -> bool, ws: seq<World>, steps: seq<Step>, j: nat, n: nat)
    requires IsRun(ok, ws, steps) && j < |steps|
    ensures Spoils(ok, ws[j], steps[j], n) <==>
            WritesUnchecked(ok, ws[j], steps[j], n) && Soiled(ok, ws, steps, j, n)
  {
    StepOf(ok, ws, steps, j);
    if On(steps[j], n) {
      FitUnlessSoiled(ok, ws, steps, j, n);
    }
  }

  /** The same by what happened alone: a daemon can start at every point of a run so far exactly if
      none of its unchecked writes came, without a stop in between, after a command that was not
      acceptable. */
  lemma StartsUnlessSoiled(ok: Id -> bool, ws: seq<World>, steps: seq<Step>, k: nat, n: nat)
    requires IsRun(ok, ws, steps) && k < |ws| && n < |ws[0].nodes|
    ensures (forall i :: 0 <= i <= k ==> CanStart(ok, ws, i, n)) <==>
            (forall j :: 0 <= j < k && WritesUnchecked(ok, ws[j], steps[j], n) ==> !Soiled(ok, ws, steps, j, n))
  {
    StartsIff(ok, ws, steps, k, n);
    forall j | 0 <= j < k
      ensures Spoils(ok, ws[j], steps[j], n) <==>
              WritesUnchecked(ok, ws[j], steps[j], n) && Soiled(ok, ws, steps, j, n)
    {
      SpoilsIff(ok, ws, steps, j, n);
    }
  }

  lemma PoliteSoilsNothing(ok: Id -> bool, ws: seq<World>, steps: seq<Step>, j: nat, n: nat)
    requires IsRun(ok, ws, steps) && PoliteRun(ok, ws, steps) && j < |steps|
    ensures !Soils(ok, ws[j], steps[j], n)
  {
    RunsKeepInv(ok, ws, steps, j);
    StepOf(ok, ws, steps, j);
    assert Polite(ok, ws[j], steps[j]);
    if steps[j].Run? {
      PoliteIsAcceptable(ok, ws[j], ws[j + 1], steps[j]);
    }
  }

  /** So on a polite run a daemon can always start, and every key its file names as its own has its
      key file. */
  lemma AlwaysStarts(ok: Id -> bool, ws: seq<World>, steps: seq<Step>, i: nat, n: nat)
    requires IsRun(ok, ws, steps) && PoliteRun(ok, ws, steps) && i < |ws| && n < |ws[i].nodes|
    ensures Starts(ok, ws[i].nodes[n].s.store)
    ensures KeysHeld(ws[i].nodes[n].s.store.file, ws[i].nodes[n].s.store.keys)
  {
    RunsKeepInv(ok, ws, steps, i);
    assert StateOk(ws[i].roles, ws[i].answered, n, ws[i].nodes[n].s);
    RunsGoOn(ok, ws, steps, 0, i);
    forall j | 0 <= j < i ensures !Soils(ok, ws[j], steps[j], n) {
      PoliteSoilsNothing(ok, ws, steps, j, n);
    }
    StartsUnlessSoiled(ok, ws, steps, i, n);
    assert CanStart(ok, ws, i, n);
  }
}
