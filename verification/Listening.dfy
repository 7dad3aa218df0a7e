/** On which of its addresses a daemon can be dialled: the ones its file named when it last
    started, all of them and no others, until it stops. */
module Listening {
  import opened Wrappers
  import opened Proto
  import opened Network
  import opened Commands
  import opened World
  import opened Invariant
  import opened Preservation
  import opened Edges
  import opened Starting

  /** The daemon started last at world `i` and has neither stopped nor started since. */
  ghost predicate UpSince(ws: seq<World>, steps: seq<Step>, i: nat, j: nat, n: nat)
    requires |ws| == |steps| + 1 && i <= j < |ws|
  {
    && n < |ws[i].nodes| && (i == 0 || steps[i - 1] == Step.Restart(n)) && AliveFrom(steps, i, j, n)
  }

  /** Every handshake key of the file, retired or not, is bound under its alias, and nothing else is. */
  ghost predicate BoundTo(bound: seq<Endpoint>, keys: seq<HandshakeKey>) {
    && |bound| == |keys|
    && forall h :: 0 <= h < |keys| ==> bound[h].alias == keys[h].alias && bound[h].key == keys[h].key
  }

  lemma StartBinds(ok: Id -> bool, ws: seq<World>, steps: seq<Step>, i: nat, n: nat)
    requires IsRun(ok, ws, steps) && i < |ws| && UpSince(ws, steps, i, i, n)
    ensures ws[i].nodes[n].up && ws[i].nodes[n].s.net == ws[i].nodes[n].s.store.file
    ensures BoundTo(ws[i].nodes[n].s.bound, ws[i].nodes[n].s.store.file.handshakeKeys)
  {
    if i == 0 {
      assert FreshHome(ok, ws[0], n);
    } else {
      StepOf(ok, ws, steps, i - 1);
    }
  }

  lemma RunKeepsBound(ok: Id -> bool, w: World, m: nat, cmd: Command, saves: bool, n: nat)
    requires m < |w.nodes| && n < |w.nodes|
    ensures Ran(ok, w, m, cmd, saves).nodes[n].s.bound == w.nodes[n].s.bound
  {
    var o := Execute(ok, w.nodes[m].s.net, cmd, saves);
    RepliesFit(ok, w.nodes[m].s.net, cmd, saves);
    ResultNodes(w, m, cmd, o, ApplyAll(w.nodes[m].s.store, o.writes));
  }

  lemma StepKeepsBound(ok: Id -> bool, w: World, w': World, step: Step, n: nat)
    requires NextBy(ok, w, w', step) && n < |w.nodes| && Alive(step, n)
    ensures n < |w'.nodes| && w'.nodes[n].s.bound == w.nodes[n].s.bound && w'.nodes[n].up == w.nodes[n].up
  {
    StaysUp(ok, w, w', step, n);
    if step.Run? {
      RunKeepsBound(ok, w, step.n, step.cmd, step.saves, n);
    }
  }

  ghost predicate SameBound(w: World, w': World, n: nat) {
    n < |w.nodes| && n < |w'.nodes| && w'.nodes[n].s.bound == w.nodes[n].s.bound && w'.nodes[n].up == w.nodes[n].up
  }

  /** From a start to the stop that follows, a daemon listens on exactly the keys its file named when
      it started, each under the alias the file gave it. */
  lemma BoundSinceStart(ok: Id -> bool, ws: seq<World>, steps: seq<Step>, i: nat, j: nat, n: nat)
    requires IsRun(ok, ws, steps) && i <= j < |ws| && UpSince(ws, steps, i, j, n)
    ensures n < |ws[j].nodes| && ws[j].nodes[n].up
    ensures BoundTo(ws[j].nodes[n].s.bound, ws[i].nodes[n].s.store.file.handshakeKeys)
  {
    StartBinds(ok, ws, steps, i, n);
    forall k | i <= k < j && SameBound(ws[i], ws[k], n) ensures SameBound(ws[i], ws[k + 1], n) {
      StepOf(ok, ws, steps, k);
      StepKeepsBound(ok, ws[k], ws[k + 1], steps[k], n);
    }
    Onwards(ws, w => SameBound(ws[i], w, n), i, j);
  }

  /** An outsider with a key of its own can reach the daemon at `address`. */
  ghost predicate Reachable(ok: Id -> bool, w: World, n: nat, address: Id, caller: Id) {
    && n < |w.nodes|
    && exists e :: e in w.nodes[n].s.bound && e.key == address && Permitted(ok, w, n, Greet(caller, e.alias, PeerHello))
  }

  ghost predicate NamesKey(keys: seq<HandshakeKey>, address: Id) {
    exists h :: 0 <= h < |keys| && keys[h].key == address
  }

  lemma ReachableIff(ok: Id -> bool, w: World, n: nat, keys: seq<HandshakeKey>, address: Id, caller: Id)
    requires n < |w.nodes| && BoundTo(w.nodes[n].s.bound, keys) && ok(caller) && caller !in w.roles
    ensures Reachable(ok, w, n, address, caller) <==> NamesKey(keys, address)
  {
    var bound := w.nodes[n].s.bound;
    if Reachable(ok, w, n, address, caller) {
      var e :| e in bound && e.key == address;
      var h :| 0 <= h < |bound| && bound[h] == e;
      assert keys[h].key == address;
    }
    if NamesKey(keys, address) {
      var h :| 0 <= h < |keys| && keys[h].key == address;
      var e := bound[h];
      assert e in bound && e.alias == e.alias && MayDial(w, e.key, caller, PeerHello);
      assert Permitted(ok, w, n, Greet(caller, e.alias, PeerHello));
    }
  }

  /** So an address can be dialled exactly if the file named it when the daemon started. Every address
      advertised at the start, and so every one in an invite made before another was added, can be
      dialled until the daemon stops; an address added since cannot. */
  lemma DialledIffFiledAtStart(ok: Id -> bool, ws: seq<World>, steps: seq<Step>, i: nat, j: nat, n: nat,
                               address: Id, caller: Id)
    requires IsRun(ok, ws, steps) && i <= j < |ws| && UpSince(ws, steps, i, j, n)
    requires ok(caller) && caller !in ws[j].roles
    ensures Reachable(ok, ws[j], n, address, caller) <==>
            NamesKey(ws[i].nodes[n].s.store.file.handshakeKeys, address)
    ensures address in CurrentAddresses(ws[i].nodes[n].s.net) ==> Reachable(ok, ws[j], n, address, caller)
  {
    BoundSinceStart(ok, ws, steps, i, j, n);
    StartBinds(ok, ws, steps, i, n);
    ReachableIff(ok, ws[j], n, ws[i].nodes[n].s.store.file.handshakeKeys, address, caller);
    if address in CurrentAddresses(ws[i].nodes[n].s.net) {
      var keys := ws[i].nodes[n].s.net.handshakeKeys;
      var k :| k in keys && k.key == address;
      var h :| 0 <= h < |keys| && keys[h] == k;
    }
  }

  /** What `init` leaves can be started from: a net that knows nobody, with the one key, called
      "default", which is then listened on and advertised. */
  lemma FreshHomeListens(ok: Id -> bool, key: Id)
    requires ok(key)
    ensures
      var store := InitialStore(key);
      var s := Started(store);
      && Starts(ok, store) && store.keys == {key}
      && s.net.peers == [] && s.net.devices == [] && s.net.dns == [] && s.live == map[]
      && CurrentAddresses(s.net) == [key] && HandshakeByAlias(s.net, "default") == Some(0)
      && |s.bound| == 1 && s.bound[0].alias == "default" && s.bound[0].key == key
  {
    assert Advertised(InitialStore(key).file.handshakeKeys) == [key] + Advertised([]);
  }

  // -- one key for each alias -----------------------------------------------------------------------

  ghost predicate OneKeyPerAlias(keys: seq<HandshakeKey>) {
    forall g, h :: 0 <= g < h < |keys| ==> keys[g].alias != keys[h].alias
  }

  ghost predicate AliasesOk(w: World) {
    forall n :: 0 <= n < |w.nodes| ==>
      OneKeyPerAlias(w.nodes[n].s.net.handshakeKeys) && OneKeyPerAlias(w.nodes[n].s.store.file.handshakeKeys)
  }

  lemma CommandKeepsAliases(net: Network, cmd: Command)
    requires Sound(net) && OneKeyPerAlias(net.handshakeKeys)
    ensures OneKeyPerAlias(NextNet(net, cmd).handshakeKeys)
  {
    if cmd.Greet? && !TurnedAway(net, cmd) {
      GreetingTouchesOneEntry(net, cmd.caller, cmd.on, cmd.hello);
    }
  }

  lemma StepKeepsAliases(ok: Id -> bool, w: World, w': World, step: Step)
    requires Inv(ok, w) && AliasesOk(w) && NextBy(ok, w, w', step)
    ensures AliasesOk(w')
  {
    StepsGoOn(ok, w, w', step);
    forall n | 0 <= n < |w'.nodes|
      ensures OneKeyPerAlias(w'.nodes[n].s.net.handshakeKeys)
      ensures OneKeyPerAlias(w'.nodes[n].s.store.file.handshakeKeys)
    {
      StepLeaves(ok, w, w', step, n);
      if On(step, n) {
        assert StateOk(w.roles, w.answered, n, w.nodes[n].s);
        CommandKeepsAliases(w.nodes[n].s.net, step.cmd);
      }
    }
  }

  lemma AliasesAtFirst(ok: Id -> bool, w: World)
    requires Init(ok, w)
    ensures AliasesOk(w)
  {
    forall n | 0 <= n < |w.nodes|
      ensures OneKeyPerAlias(w.nodes[n].s.net.handshakeKeys)
      ensures OneKeyPerAlias(w.nodes[n].s.store.file.handshakeKeys)
    {
      assert FreshHome(ok, w, n);
    }
  }

  /** Nothing checks it: in every reachable memory and file an alias of ours names one key, so where a
      peer last arrived is one address. */
  lemma AliasNamesOneKey(ok: Id -> bool, ws: seq<World>, steps: seq<Step>, k: nat)
    requires IsRun(ok, ws, steps) && k < |ws|
    ensures AliasesOk(ws[k])
  {
    AliasesAtFirst(ok, ws[0]);
    forall i | 0 <= i < k && AliasesOk(ws[i]) ensures AliasesOk(ws[i + 1]) {
      RunsKeepInv(ok, ws, steps, i);
      StepOf(ok, ws, steps, i);
      StepKeepsAliases(ok, ws[i], ws[i + 1], steps[i]);
    }
    Onwards(ws, AliasesOk, 0, k);
  }
}
