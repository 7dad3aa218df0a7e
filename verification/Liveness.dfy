/** The roster of every daemon in every run, against its open connections: what registers and
    departs in the world is what `Roster` speaks of. */
module Liveness {
  import opened Wrappers
  import opened Proto
  import opened Network
  import opened Commands
  import opened World
  import opened Invariant
  import opened Preservation
  import opened Edges
  import opened Connections
  import R = Roster

  /** What the step does to the registrations at daemon `n`, if it does one thing to them. */
  ghost function EventOf(w: World, step: Step, n: nat): Option<R.Event> {
    match step
    case Register(m, key, hints) =>
      if m == n && n < |w.nodes| && DeviceByKey(w.nodes[n].s.net, key).Some?
      then
        var net := w.nodes[n].s.net;
        Some(R.Registered(w.nextConn, net.devices[DeviceByKey(net, key).value].name, hints))
      else None
    case Close(conn) =>
      if conn in w.conns && w.conns[conn].node == n && w.conns[conn].asker.DeviceAsker?
      then Some(R.Departed(conn, w.conns[conn].asker.name))
      else None
    case _ => None
  }

  /** The events once a step has been taken; stopping and starting wipe them out. */
  ghost function Then(w: World, step: Step, n: nat, events: seq<R.Event>): seq<R.Event> {
    if !Alive(step, n) then []
    else events + if EventOf(w, step, n).Some? then [EventOf(w, step, n).value] else []
  }

  /** Registrations and departures at daemon `n` since it last started, before world `k`. */
  ghost function Events(ws: seq<World>, steps: seq<Step>, k: nat, n: nat): seq<R.Event>
    requires |ws| == |steps| + 1 && k < |ws|
  {
    if k == 0 then [] else Then(ws[k - 1], steps[k - 1], n, Events(ws, steps, k - 1, n))
  }

  /** The events account for the roster of daemon `n` and for its open registrations. */
  ghost predicate Accounts(w: World, n: nat, events: seq<R.Event>) {
    && n < |w.nodes| && R.WellFormed(events)
    && R.LiveAfter(events) == w.nodes[n].s.live
    && (forall id, name ::
          Registration(w, id, n, name) <==> id in R.OpenAfter(events) && R.OpenAfter(events)[id] == name)
    && (forall e :: e in events ==> e.conn < w.nextConn)
  }

  /** The step changes neither the roster of daemon `n` nor which registrations are open there. */
  ghost predicate SameRoster(w: World, w': World, n: nat) {
    && n < |w.nodes| && n < |w'.nodes| && w'.nodes[n].s.live == w.nodes[n].s.live && w.nextConn <= w'.nextConn
    && forall id, name :: Registration(w', id, n, name) <==> Registration(w, id, n, name)
  }

  lemma RunLeavesRoster(ok: Id -> bool, w: World, w': World, step: Step, n: nat)
    requires ConnsOk(w) && NextBy(ok, w, w', step) && step.Run? && n < |w.nodes|
    ensures SameRoster(w, w', n)
  {
    var s := w.nodes[step.n].s;
    var o := Execute(ok, s.net, step.cmd, step.saves);
    RepliesFit(ok, s.net, step.cmd, step.saves);
    ResultLeavesRoster(w, step.n, step.cmd, o, ApplyAll(s.store, o.writes), n);
  }

  lemma ResultLeavesRoster(w: World, m: nat, cmd: Command, o: Outcome, store: Store, n: nat)
    requires ConnsOk(w) && m < |w.nodes| && n < |w.nodes| && ReplyFits(w.nodes[m].s.net, cmd, o)
    ensures SameRoster(w, Resulting(w, m, cmd, o, store), n)
  {
    ResultConns(w, m, cmd, o, store);
  }

  /** Another daemon stops, or a connection that is no registration here comes or goes. */
  lemma OtherLeavesRoster(ok: Id -> bool, w: World, w': World, step: Step, n: nat)
    requires ConnsOk(w) && NextBy(ok, w, w', step) && !step.Run? && n < |w.nodes|
    requires Alive(step, n) && EventOf(w, step, n).None?
    ensures SameRoster(w, w', n)
  {
    if step.Crash? || step.CrashDuring? {
      OtherStops(ok, w, w', step, n);
    } else if step.Register? {
      OtherRegisters(ok, w, w', step, n);
    } else if step.Close? {
      OtherCloses(ok, w, w', step, n);
    }
  }

  lemma OtherStops(ok: Id -> bool, w: World, w': World, step: Step, n: nat)
    requires NextBy(ok, w, w', step) && (step.Crash? || step.CrashDuring?) && n < |w.nodes| && step.n != n
    ensures SameRoster(w, w', n)
  {
    assert forall id :: id in w'.conns <==> id in w.conns && w.conns[id].node != step.n;
  }

  lemma OtherRegisters(ok: Id -> bool, w: World, w': World, step: Step, n: nat)
    requires ConnsOk(w) && NextBy(ok, w, w', step) && step.Register? && step.n != n && n < |w.nodes|
    ensures SameRoster(w, w', n)
  {
  }

  lemma OtherCloses(ok: Id -> bool, w: World, w': World, step: Step, n: nat)
    requires NextBy(ok, w, w', step) && step.Close? && EventOf(w, step, n).None? && n < |w.nodes|
    ensures SameRoster(w, w', n)
  {
  }

  lemma RegisterIsAnEvent(w: World, w': World, n: nat, key: Id, hints: seq<string>, name: string, events: seq<R.Event>)
    requires ConnsOk(w) && Accounts(w, n, events)
    requires |w'.nodes| == |w.nodes| && w'.nodes[n].s.live == w.nodes[n].s.live[name := hints]
    requires w'.conns == w.conns[w.nextConn := Conn(n, key, DeviceAsker(name, hints))] && w'.nextConn == w.nextConn + 1
    ensures Accounts(w', n, events + [R.Registered(w.nextConn, name, hints)])
  {
    var last := R.Registered(w.nextConn, name, hints);
    var events' := events + [last];
    R.AfterOne(events, last);
    forall id, other
      ensures Registration(w', id, n, other) <==> id in R.OpenAfter(events') && R.OpenAfter(events')[id] == other
    {
      if id != w.nextConn {
        assert Registration(w', id, n, other) <==> Registration(w, id, n, other);
      }
    }
  }

  lemma CloseIsAnEvent(w: World, w': World, n: nat, conn: nat, events: seq<R.Event>)
    requires ConnsOk(w) && Accounts(w, n, events)
    requires conn in w.conns && w.conns[conn].node == n && w.conns[conn].asker.DeviceAsker?
    requires |w'.nodes| == |w.nodes| && w'.nodes[n].s.live == w.nodes[n].s.live - {w.conns[conn].asker.name}
    requires w'.conns == w.conns - {conn} && w'.nextConn == w.nextConn
    ensures Accounts(w', n, events + [R.Departed(conn, w.conns[conn].asker.name)])
  {
    var name := w.conns[conn].asker.name;
    var last := R.Departed(conn, name);
    var events' := events + [last];
    R.AfterOne(events, last);
    assert Registration(w, conn, n, name);
    forall id, other
      ensures Registration(w', id, n, other) <==> id in R.OpenAfter(events') && R.OpenAfter(events')[id] == other
    {
      if id != conn {
        assert Registration(w', id, n, other) <==> Registration(w, id, n, other);
      }
    }
  }

  lemma StillAccounts(w: World, w': World, n: nat, events: seq<R.Event>)
    requires Accounts(w, n, events) && SameRoster(w, w', n)
    ensures Accounts(w', n, events)
  {
  }

  lemma StoppedOrStarted(ok: Id -> bool, w: World, w': World, step: Step, n: nat)
    requires ConnsOk(w) && NextBy(ok, w, w', step) && n < |w.nodes| && !Alive(step, n)
    ensures Accounts(w', n, [])
  {
    assert R.LiveAfter([]) == map[] && R.OpenAfter([]) == map[];
  }

  lemma StepAccounts(ok: Id -> bool, w: World, w': World, step: Step, n: nat, events: seq<R.Event>)
    requires ConnsOk(w) && NextBy(ok, w, w', step) && Alive(step, n) && Accounts(w, n, events)
    ensures
      var event := EventOf(w, step, n);
      Accounts(w', n, events + if event.Some? then [event.value] else [])
  {
    var event := EventOf(w, step, n);
    if event.None? {
      assert events + [] == events;
      if step.Run? {
        RunLeavesRoster(ok, w, w', step, n);
      } else {
        OtherLeavesRoster(ok, w, w', step, n);
      }
      StillAccounts(w, w', n, events);
    } else if step.Register? {
      RegisterIsAnEvent(w, w', n, step.key, step.hints, event.value.name, events);
    } else {
      CloseIsAnEvent(w, w', n, step.conn, events);
    }
  }

  lemma InitAccounts(ok: Id -> bool, w: World, n: nat)
    requires Init(ok, w) && n < |w.nodes|
    ensures Accounts(w, n, [])
  {
    assert FreshHome(ok, w, n);
    assert R.LiveAfter([]) == map[] && R.OpenAfter([]) == map[];
  }

  lemma NextAccounts(ok: Id -> bool, ws: seq<World>, steps: seq<Step>, i: nat, n: nat, events: seq<R.Event>)
    requires IsRun(ok, ws, steps) && i < |steps| && Accounts(ws[i], n, events)
    ensures Accounts(ws[i + 1], n, Then(ws[i], steps[i], n, events))
  {
    StepOf(ok, ws, steps, i);
    RunsKeepConnInv(ok, ws, steps, i);
    if Alive(steps[i], n) {
      StepAccounts(ok, ws[i], ws[i + 1], steps[i], n, events);
    } else {
      StoppedOrStarted(ok, ws[i], ws[i + 1], steps[i], n);
    }
  }

  /** In every world of every run, what has registered and departed at a daemon since it last
      started accounts for its roster and for the registrations open there. */
  lemma {:induction false} EventsAccount(ok: Id -> bool, ws: seq<World>, steps: seq<Step>, k: nat, n: nat)
    requires IsRun(ok, ws, steps) && k < |ws| && n < |ws[k].nodes|
    ensures Accounts(ws[k], n, Events(ws, steps, k, n))
  {
    if k == 0 {
      InitAccounts(ok, ws[0], n);
    } else {
      WorldGoesOn(ok, ws, steps, k - 1);
      EventsAccount(ok, ws, steps, k - 1, n);
      NextAccounts(ok, ws, steps, k - 1, n, Events(ws, steps, k - 1, n));
    }
  }

  // -- when the roster is right ----------------------------------------------------------------

  ghost predicate IsRegistered(w: World, n: nat, name: string) {
    exists id :: Registration(w, id, n, name)
  }

  /** The roster of daemon `n` is the names with an open registration. */
  ghost predicate RosterAgrees(w: World, n: nat) {
    n < |w.nodes| && forall name :: name in w.nodes[n].s.live <==> IsRegistered(w, n, name)
  }

  /** The step ends a registration of a name while another is open. */
  ghost predicate ClosesUnder(w: World, step: Step, n: nat) {
    && step.Close? && step.conn in w.conns && w.conns[step.conn].node == n && w.conns[step.conn].asker.DeviceAsker?
    && exists id :: id != step.conn && Registration(w, id, n, w.conns[step.conn].asker.name)
  }

  /** The step registers a name while a registration of it is open. */
  ghost predicate RegistersOver(w: World, step: Step, n: nat) {
    && step.Register? && step.n == n && n < |w.nodes| && DeviceByKey(w.nodes[n].s.net, step.key).Some?
    && IsRegistered(w, n, w.nodes[n].s.net.devices[DeviceByKey(w.nodes[n].s.net, step.key).value].name)
  }

  lemma AgreesAsAccounted(w: World, n: nat, events: seq<R.Event>)
    requires Accounts(w, n, events)
    ensures RosterAgrees(w, n) <==> R.Agrees(events)
  {
    forall name ensures IsRegistered(w, n, name) <==> R.IsOpen(events, name) {
      OpenAsAccounted(w, n, events, name);
    }
  }

  lemma OpenAsAccounted(w: World, n: nat, events: seq<R.Event>, name: string)
    requires Accounts(w, n, events)
    ensures IsRegistered(w, n, name) <==> R.IsOpen(events, name)
  {
    if IsRegistered(w, n, name) {
      var id :| Registration(w, id, n, name);
    }
    if R.IsOpen(events, name) {
      var id :| id in R.OpenAfter(events) && R.OpenAfter(events)[id] == name;
      assert Registration(w, id, n, name);
    }
  }

  /** From a roster that is right, a step leaves it right exactly unless it ends one registration
      of a name while another is open. */
  lemma StepAgreesIff(ok: Id -> bool, ws: seq<World>, steps: seq<Step>, i: nat, n: nat)
    requires IsRun(ok, ws, steps) && i < |steps| && n < |ws[i].nodes| && RosterAgrees(ws[i], n)
    ensures RosterAgrees(ws[i + 1], n) <==> !ClosesUnder(ws[i], steps[i], n)
  {
    var before := Events(ws, steps, i, n);
    EventsAccount(ok, ws, steps, i, n);
    NextAccounts(ok, ws, steps, i, n, before);
    AgreesAsAccounted(ws[i], n, before);
    AgreesAsAccounted(ws[i + 1], n, Then(ws[i], steps[i], n, before));
    if !Alive(steps[i], n) {
      assert R.Agrees([]);
    } else if EventOf(ws[i], steps[i], n).None? {
      assert before + [] == before;
    } else {
      EventAgreesIff(ok, ws, steps, i, n, before, EventOf(ws[i], steps[i], n).value);
    }
  }

  lemma EventAgreesIff(ok: Id -> bool, ws: seq<World>, steps: seq<Step>, i: nat, n: nat, before: seq<R.Event>,
                       event: R.Event)
    requires IsRun(ok, ws, steps) && i < |steps| && EventOf(ws[i], steps[i], n) == Some(event)
    requires R.Agrees(before) && Accounts(ws[i + 1], n, before + [event])
    ensures R.Agrees(before + [event]) <==> !ClosesUnder(ws[i], steps[i], n)
  {
    R.OneEventAgreesIff(before, event);
    if steps[i].Close? {
      StepOf(ok, ws, steps, i);
      OpenAsAccounted(ws[i + 1], n, before + [event], event.name);
      StillOpenAfterClose(ok, ws[i], ws[i + 1], steps[i], n);
    }
  }

  lemma StillOpenAfterClose(ok: Id -> bool, w: World, w': World, step: Step, n: nat)
    requires NextBy(ok, w, w', step) && step.Close? && EventOf(w, step, n).Some?
    ensures IsRegistered(w', n, EventOf(w, step, n).value.name) <==> ClosesUnder(w, step, n)
  {
    var name := w.conns[step.conn].asker.name;
    forall id ensures Registration(w', id, n, name) <==> id != step.conn && Registration(w, id, n, name) {
    }
  }

  /** Over every run: a daemon's roster is all along exactly the names with an open registration
      if, and only if, no registration of a name ever ends at it while another is open. */
  lemma RosterAgreesIff(ok: Id -> bool, ws: seq<World>, steps: seq<Step>, k: nat, n: nat)
    requires IsRun(ok, ws, steps) && k < |ws| && n < |ws[0].nodes|
    ensures (forall i :: 0 <= i <= k ==> RosterAgrees(ws[i], n)) <==>
            (forall i :: 0 <= i < k ==> !ClosesUnder(ws[i], steps[i], n))
  {
    if forall i :: 0 <= i <= k ==> RosterAgrees(ws[i], n) {
      forall i | 0 <= i < k ensures !ClosesUnder(ws[i], steps[i], n) {
        assert RosterAgrees(ws[i], n) && RosterAgrees(ws[i + 1], n);
        StepAgreesIff(ok, ws, steps, i, n);
      }
    }
    if forall i :: 0 <= i < k ==> !ClosesUnder(ws[i], steps[i], n) {
      forall i | 0 <= i <= k ensures RosterAgrees(ws[i], n) {
        AgreesSoFar(ok, ws, steps, i, n);
      }
    }
  }

  lemma {:induction false} AgreesSoFar(ok: Id -> bool, ws: seq<World>, steps: seq<Step>, k: nat, n: nat)
    requires IsRun(ok, ws, steps) && k < |ws| && n < |ws[0].nodes|
    requires forall i :: 0 <= i < k ==> !ClosesUnder(ws[i], steps[i], n)
    ensures RosterAgrees(ws[k], n)
  {
    if k == 0 {
      EventsAccount(ok, ws, steps, 0, n);
      AgreesAsAccounted(ws[0], n, []);
      assert R.Agrees([]);
    } else {
      AgreesSoFar(ok, ws, steps, k - 1, n);
      StepAgreesIff(ok, ws, steps, k - 1, n);
    }
  }

  /** So it is whenever registrations of a name never overlap at that daemon. */
  lemma NoOverlapAgrees(ok: Id -> bool, ws: seq<World>, steps: seq<Step>, k: nat, n: nat)
    requires IsRun(ok, ws, steps) && k < |ws| && n < |ws[k].nodes|
    requires forall i :: 0 <= i < k ==> !RegistersOver(ws[i], steps[i], n)
    ensures RosterAgrees(ws[k], n)
  {
    var events := Events(ws, steps, k, n);
    EventsAccount(ok, ws, steps, k, n);
    EventsNeverOverlap(ok, ws, steps, k, n);
    forall name ensures name in R.LiveAfter(events) <==> R.IsOpen(events, name) {
      R.LiveIsOpen(events, name);
    }
    AgreesAsAccounted(ws[k], n, events);
  }

  lemma {:induction false} EventsNeverOverlap(ok: Id -> bool, ws: seq<World>, steps: seq<Step>, k: nat, n: nat)
    requires IsRun(ok, ws, steps) && k < |ws| && n < |ws[k].nodes|
    requires forall i :: 0 <= i < k ==> !RegistersOver(ws[i], steps[i], n)
    ensures R.NeverOverlaps(Events(ws, steps, k, n))
  {
    if k > 0 && Alive(steps[k - 1], n) {
      WorldGoesOn(ok, ws, steps, k - 1);
      EventsNeverOverlap(ok, ws, steps, k - 1, n);
      EventsAccount(ok, ws, steps, k - 1, n);
      NextOverlapsNothing(ws[k - 1], steps[k - 1], n, Events(ws, steps, k - 1, n));
    }
  }

  lemma NextOverlapsNothing(w: World, step: Step, n: nat, before: seq<R.Event>)
    requires Accounts(w, n, before) && R.NeverOverlaps(before) && !RegistersOver(w, step, n)
    ensures
      var event := EventOf(w, step, n);
      R.NeverOverlaps(before + if event.Some? then [event.value] else [])
  {
    var event := EventOf(w, step, n);
    if event.Some? {
      R.AfterOne(before, event.value);
      if event.value.Registered? {
        OpenAsAccounted(w, n, before, event.value.name);
      }
    } else {
      assert before + [] == before;
    }
  }

  ghost function RegisteredIn(w: World, n: nat, key: Id, hints: seq<string>, name: string): World
    requires n < |w.nodes|
  {
    var s := w.nodes[n].s;
    w.(nodes := w.nodes[n := Node(true, s.(live := s.live[name := hints]))],
       roles := Introduce(w.roles, key),
       conns := w.conns[w.nextConn := Conn(n, key, DeviceAsker(name, hints))],
       nextConn := w.nextConn + 1)
  }

  ghost function ClosedIn(w: World, conn: nat, name: string): World
    requires conn in w.conns && w.conns[conn].node < |w.nodes|
  {
    var n := w.conns[conn].node;
    var s := w.nodes[n].s;
    w.(nodes := w.nodes[n := w.nodes[n].(s := s.(live := s.live - {name}))], conns := w.conns - {conn})
  }

  /** `key` is that of the device `name` of daemon `n`, and no daemon's. */
  ghost predicate DeviceAt(ok: Id -> bool, w: World, n: nat, key: Id, name: string) {
    && n < |w.nodes| && w.nodes[n].up && ok(key) && (key !in w.roles || w.roles[key].Outside?)
    && DeviceByKey(w.nodes[n].s.net, key).Some?
    && w.nodes[n].s.net.devices[DeviceByKey(w.nodes[n].s.net, key).value].name == name
  }

  lemma RegisterStep(ok: Id -> bool, w: World, n: nat, key: Id, hints: seq<string>, name: string)
    requires DeviceAt(ok, w, n, key, name)
    ensures NextBy(ok, w, RegisteredIn(w, n, key, hints, name), Step.Register(n, key, hints))
    ensures DeviceAt(ok, RegisteredIn(w, n, key, hints, name), n, key, name)
  {
  }

  lemma CloseStep(ok: Id -> bool, w: World, conn: nat, n: nat, key: Id, hints: seq<string>, name: string)
    requires conn in w.conns && w.conns[conn] == Conn(n, key, DeviceAsker(name, hints)) && n < |w.nodes|
    ensures NextBy(ok, w, ClosedIn(w, conn, name), Step.Close(conn))
  {
  }

  /** They do overlap in the world: a device that is registered asks, which registers it again
      listening nowhere; until the ask ends it is found at no address, and when the ask ends it is
      not found, though its registration is open all along. */
  lemma AskTakesTheNameAway(ok: Id -> bool, w: World, n: nat, key: Id, hints: seq<string>, name: string)
    requires DeviceAt(ok, w, n, key, name)
    ensures
      var w1 := RegisteredIn(w, n, key, hints, name);
      var w2 := RegisteredIn(w1, n, key, [], name);
      var w3 := ClosedIn(w2, w1.nextConn, name);
      && NextBy(ok, w, w1, Step.Register(n, key, hints))
      && NextBy(ok, w1, w2, Step.Register(n, key, []))
      && NextBy(ok, w2, w3, Step.Close(w1.nextConn))
      && w1.nodes[n].s.live[name] == hints && w2.nodes[n].s.live[name] == [] && name !in w3.nodes[n].s.live
      && Registration(w3, w.nextConn, n, name)
  {
    var w1 := RegisteredIn(w, n, key, hints, name);
    var w2 := RegisteredIn(w1, n, key, [], name);
    RegisterStep(ok, w, n, key, hints, name);
    RegisterStep(ok, w1, n, key, [], name);
    CloseStep(ok, w2, w1.nextConn, n, key, [], name);
  }
}
