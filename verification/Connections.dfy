/** Open connections, the roster of live devices, and what a ticket's alias says. */
module Connections {
  import opened Wrappers
  import opened Proto
  import opened Network
  import opened Commands
  import opened World
  import opened Invariant
  import opened Preservation
  import opened Edges
  import T = Ticket

  /** `key` is the counterpart an entry called `alias` records, or the key of the device of
      that name. */
  ghost predicate GoesBy(net: Network, key: Id, alias: string) {
    || (exists i :: 0 <= i < |net.peers| && net.peers[i].alias == alias && net.peers[i].peer == Some(key))
    || HasDevice(net, alias, key)
  }

  ghost predicate AskerOk(net: Network, c: Conn) {
    match c.asker
    case PeerAsker(alias) => GoesBy(net, c.key, alias)
    case DeviceAsker(name, _) => HasDevice(net, name, c.key)
  }

  /** The connection on which the device `name` of daemon `n` said it listens at `hints`. */
  ghost predicate Registration(w: World, id: nat, n: nat, name: string) {
    id in w.conns && w.conns[id].node == n && w.conns[id].asker.DeviceAsker? && w.conns[id].asker.name == name
  }

  /** The newest registration of the name is open, and the roster has its hints. */
  ghost predicate NewestIsOpen(w: World, n: nat, name: string, hints: seq<string>) {
    exists id :: Registration(w, id, n, name) && w.conns[id].asker.hints == hints &&
      forall other :: Registration(w, other, n, name) ==> other <= id
  }

  ghost predicate DevicesHoldOneKey(net: Network) {
    forall i :: 0 <= i < |net.devices| ==> |net.devices[i].keys| <= 1
  }

  ghost predicate ConnsOk(w: World) {
    forall id :: id in w.conns ==>
      id < w.nextConn && w.conns[id].node < |w.nodes| && w.nodes[w.conns[id].node].up &&
      AskerOk(w.nodes[w.conns[id].node].s.net, w.conns[id])
  }

  ghost predicate ConnInv(w: World) {
    && ConnsOk(w)
    && (forall n :: 0 <= n < |w.nodes| ==> RosterOk(w, n))
  }

  ghost predicate RosterOk(w: World, n: nat)
    requires n < |w.nodes|
  {
    && DevicesHoldOneKey(w.nodes[n].s.net) && DevicesHoldOneKey(w.nodes[n].s.store.file)
    && forall name :: name in w.nodes[n].s.live ==> NewestIsOpen(w, n, name, w.nodes[n].s.live[name])
  }

  // -- keeping it ----------------------------------------------------------------------------------

  lemma AskersStayOk(net: Network, net': Network, c: Conn)
    requires Grown(net, net') && AskerOk(net, c)
    ensures AskerOk(net', c)
  {
    assert forall i :: 0 <= i < |net.peers| ==> PeerGrown(net.peers[i], net'.peers[i]);
    assert forall i :: 0 <= i < |net.devices| ==> DeviceGrown(net.devices[i], net'.devices[i]);
  }

  lemma WelcomedGoesBy(net: Network, caller: Id, on: string, hello: Hello)
    requires Sound(net) && !Recognise(net, caller, hello).Stranger?
    ensures GoesBy(Greeted(net, caller, on, hello), caller, AnswersTo(net, caller, hello))
  {
    var net' := Greeted(net, caller, on, hello);
    GreetingTouchesOneEntry(net, caller, on, hello);
    match Recognise(net, caller, hello)
    case Known(i) =>
      assert net'.peers[i].alias == net.peers[i].alias && net'.peers[i].peer == Some(caller);
    case Enrols(i) =>
      assert net'.devices[i].name == net.devices[i].name && net'.devices[i].keys == [caller];
    case Pairs(i) =>
      assert net'.peers[i].alias == net.peers[i].alias && net'.peers[i].peer == Some(caller);
  }

  lemma OneKeyStays(net: Network, net': Network, ids: set<Id>)
    requires Brought(net, net', ids) && DevicesHoldOneKey(net)
    requires forall i :: |net.devices| <= i < |net'.devices| ==> net'.devices[i].keys == []
    ensures DevicesHoldOneKey(net')
  {
    assert forall i :: 0 <= i < |net.devices| ==> DeviceGrown(net.devices[i], net'.devices[i]);
  }

  lemma NewDevicesWait(ok: Id -> bool, net: Network, cmd: Command, saves: bool)
    requires Sound(net)
    ensures var net' := Execute(ok, net, cmd, saves).net;
      forall i :: |net.devices| <= i < |net'.devices| ==> net'.devices[i].keys == []
  {
    if cmd.Greet? && !Recognise(net, cmd.caller, cmd.hello).Stranger? {
      GreetingTouchesOneEntry(net, cmd.caller, cmd.on, cmd.hello);
    }
  }

  ghost predicate WelcomeFits(cmd: Command, o: Outcome) {
    o.reply.Welcomed? && cmd.Greet? && o.reply.welcome.Ok? ==> GoesBy(o.net, cmd.caller, o.reply.welcome.alias)
  }

  /** Nothing a resolution or a connection sees of daemon `m` has shrunk. */
  ghost predicate NodeGrown(a: Node, b: Node) {
    && (a.up ==> b.up && Grown(a.s.net, b.s.net)) && b.s.live == a.s.live
    && DevicesHoldOneKey(b.s.net) && DevicesHoldOneKey(b.s.store.file)
  }

  lemma ConnsStayOk(w: World, w': World, c: Option<Conn>)
    requires ConnsOk(w) && |w'.nodes| == |w.nodes|
    requires forall m :: 0 <= m < |w.nodes| ==> NodeGrown(w.nodes[m], w'.nodes[m])
    requires w'.nextConn == (if c.Some? then w.nextConn + 1 else w.nextConn)
    requires w'.conns == (if c.Some? then w.conns[w.nextConn := c.value] else w.conns)
    requires c.Some? ==> c.value.node < |w.nodes| && w'.nodes[c.value.node].up
                         && AskerOk(w'.nodes[c.value.node].s.net, c.value)
    ensures ConnsOk(w')
  {
    forall id | id in w'.conns
      ensures id < w'.nextConn && w'.conns[id].node < |w'.nodes| && w'.nodes[w'.conns[id].node].up &&
              AskerOk(w'.nodes[w'.conns[id].node].s.net, w'.conns[id])
    {
      if !(c.Some? && id == w.nextConn) {
        assert w'.conns[id] == w.conns[id];
        assert NodeGrown(w.nodes[w.conns[id].node], w'.nodes[w.conns[id].node]);
        AskersStayOk(w.nodes[w.conns[id].node].s.net, w'.nodes[w.conns[id].node].s.net, w.conns[id]);
      }
    }
  }

  lemma RostersStayOk(w: World, w': World, c: Option<Conn>)
    requires ConnInv(w) && |w'.nodes| == |w.nodes|
    requires forall m :: 0 <= m < |w.nodes| ==> NodeGrown(w.nodes[m], w'.nodes[m])
    requires c.Some? ==> c.value.asker.PeerAsker?
    requires w'.conns == (if c.Some? then w.conns[w.nextConn := c.value] else w.conns)
    ensures forall m :: 0 <= m < |w'.nodes| ==> RosterOk(w', m)
  {
    forall m | 0 <= m < |w'.nodes| ensures RosterOk(w', m) {
      assert RosterOk(w, m) && NodeGrown(w.nodes[m], w'.nodes[m]);
      forall name | name in w'.nodes[m].s.live ensures NewestIsOpen(w', m, name, w'.nodes[m].s.live[name]) {
        assert NewestIsOpen(w, m, name, w.nodes[m].s.live[name]);
        SameConns(w, w', m, name, w.nodes[m].s.live[name]);
      }
    }
  }

  lemma ResultConns(w: World, n: nat, cmd: Command, o: Outcome, store: Store)
    requires n < |w.nodes| && ReplyFits(w.nodes[n].s.net, cmd, o)
    ensures
      var w' := Resulting(w, n, cmd, o, store);
      && w'.nodes == w.nodes[n := Node(true, w.nodes[n].s.(net := o.net, store := store))]
      && (o.reply.Welcomed? ==>
            && w'.conns == w.conns[w.nextConn := Conn(n, cmd.caller, PeerAsker(o.reply.welcome.alias))]
            && w'.nextConn == w.nextConn + 1)
      && (!o.reply.Welcomed? ==> w'.conns == w.conns && w'.nextConn == w.nextConn)
  {
  }

  lemma ResultKeepsConnInv(w: World, n: nat, cmd: Command, o: Outcome, store: Store)
    requires ConnInv(w) && n < |w.nodes| && ReplyFits(w.nodes[n].s.net, cmd, o) && WelcomeFits(cmd, o)
    requires Grown(w.nodes[n].s.net, o.net) && DevicesHoldOneKey(o.net)
    requires store.file == w.nodes[n].s.store.file || store.file == o.net
    ensures ConnInv(Resulting(w, n, cmd, o, store))
  {
    var w' := Resulting(w, n, cmd, o, store);
    ResultConns(w, n, cmd, o, store);
    forall m | 0 <= m < |w.nodes| ensures NodeGrown(w.nodes[m], w'.nodes[m]) {
      assert RosterOk(w, m);
      GrownReflexive(w.nodes[m].s.net);
    }
    var c := if o.reply.Welcomed? then Some(Conn(n, cmd.caller, PeerAsker(o.reply.welcome.alias))) else None;
    ConnsStayOk(w, w', c);
    RostersStayOk(w, w', c);
  }

  lemma SameConns(w: World, w': World, n: nat, name: string, hints: seq<string>)
    requires NewestIsOpen(w, n, name, hints)
    requires forall id :: Registration(w, id, n, name) <==> Registration(w', id, n, name)
    requires forall id :: Registration(w, id, n, name) ==> id in w'.conns && w'.conns[id] == w.conns[id]
    ensures NewestIsOpen(w', n, name, hints)
  {
    var id :| Registration(w, id, n, name) && w.conns[id].asker.hints == hints &&
      forall other :: Registration(w, other, n, name) ==> other <= id;
    assert Registration(w', id, n, name);
  }

  lemma RunKeepsConnInv(ok: Id -> bool, w: World, n: nat, cmd: Command, saves: bool)
    requires Inv(ok, w) && ConnInv(w) && n < |w.nodes|
    ensures ConnInv(Ran(ok, w, n, cmd, saves))
  {
    var s := w.nodes[n].s;
    assert StateOk(w.roles, w.answered, n, s);
    assert RosterOk(w, n);
    var o := Execute(ok, s.net, cmd, saves);
    RepliesFit(ok, s.net, cmd, saves);
    CommandBrings(ok, s.net, cmd, saves);
    NewDevicesWait(ok, s.net, cmd, saves);
    OneKeyStays(s.net, o.net, Brings(cmd));
    CrashPoints(ok, s.net, cmd, saves, s.store, |o.writes|);
    assert o.writes[..|o.writes|] == o.writes;
    if o.reply.Welcomed? {
      WelcomedGoesBy(s.net, cmd.caller, cmd.on, cmd.hello);
    }
    ResultKeepsConnInv(w, n, cmd, o, ApplyAll(s.store, o.writes));
  }

  lemma DownKeepsConnInv(w: World, roles: Roles, n: nat, store: Store)
    requires ConnInv(w) && n < |w.nodes| && DevicesHoldOneKey(store.file)
    ensures ConnInv(Down(w.(roles := roles), n, store))
  {
    var w' := Down(w.(roles := roles), n, store);
    forall m | 0 <= m < |w'.nodes| ensures RosterOk(w', m) {
      assert RosterOk(w, m);
      forall name | name in w'.nodes[m].s.live ensures NewestIsOpen(w', m, name, w'.nodes[m].s.live[name]) {
        SameConns(w, w', m, name, w.nodes[m].s.live[name]);
      }
    }
  }

  lemma CrashDuringKeepsConnInv(ok: Id -> bool, w: World, n: nat, cmd: Command, saves: bool, writes: nat)
    requires Inv(ok, w) && ConnInv(w) && n < |w.nodes|
    requires writes <= |Execute(ok, w.nodes[n].s.net, cmd, saves).writes|
    ensures ConnInv(Down(w.(roles := RolesAfter(w, n, cmd)), n,
                         Stopped(ok, w.nodes[n].s.net, cmd, saves, w.nodes[n].s.store, writes)))
  {
    var s := w.nodes[n].s;
    assert StateOk(w.roles, w.answered, n, s);
    assert RosterOk(w, n);
    CommandBrings(ok, s.net, cmd, saves);
    NewDevicesWait(ok, s.net, cmd, saves);
    OneKeyStays(s.net, Execute(ok, s.net, cmd, saves).net, Brings(cmd));
    CrashPoints(ok, s.net, cmd, saves, s.store, writes);
    DownKeepsConnInv(w, RolesAfter(w, n, cmd), n, Stopped(ok, s.net, cmd, saves, s.store, writes));
  }

  lemma RegisterKeepsConnInv(w: World, n: nat, key: Id, hints: seq<string>, w': World, name: string)
    requires ConnInv(w) && n < |w.nodes| && w.nodes[n].up && HasDevice(w.nodes[n].s.net, name, key)
    requires w'.nodes == w.nodes[n := Node(true, w.nodes[n].s.(live := w.nodes[n].s.live[name := hints]))]
    requires w'.conns == w.conns[w.nextConn := Conn(n, key, DeviceAsker(name, hints))] && w'.nextConn == w.nextConn + 1
    ensures ConnInv(w')
  {
    forall m | 0 <= m < |w'.nodes| ensures RosterOk(w', m) {
      assert RosterOk(w, m);
      forall other | other in w'.nodes[m].s.live ensures NewestIsOpen(w', m, other, w'.nodes[m].s.live[other]) {
        if m == n && other == name {
          assert Registration(w', w.nextConn, n, name);
        } else {
          assert NewestIsOpen(w, m, other, w.nodes[m].s.live[other]);
          SameConns(w, w', m, other, w.nodes[m].s.live[other]);
        }
      }
    }
  }

  lemma CloseKeepsConnInv(w: World, w': World, conn: nat)
    requires ConnInv(w) && conn in w.conns && w.conns[conn].node < |w.nodes|
    requires var c := w.conns[conn];
      var s := w.nodes[c.node].s;
      && w'.conns == w.conns - {conn} && w'.nextConn == w.nextConn
      && w'.nodes == w.nodes[c.node := w.nodes[c.node].(
           s := if c.asker.DeviceAsker? then s.(live := s.live - {c.asker.name}) else s)]
    ensures ConnInv(w')
  {
    forall m | 0 <= m < |w'.nodes| ensures RosterOk(w', m) {
      assert RosterOk(w, m);
      forall name | name in w'.nodes[m].s.live ensures NewestIsOpen(w', m, name, w'.nodes[m].s.live[name]) {
        assert NewestIsOpen(w, m, name, w.nodes[m].s.live[name]);
        assert !Registration(w, conn, m, name);
        SameConns(w, w', m, name, w.nodes[m].s.live[name]);
      }
    }
  }

  lemma UntouchedKeepsConnInv(w: World, w': World)
    requires ConnInv(w) && w'.conns == w.conns && w'.nextConn == w.nextConn && |w'.nodes| == |w.nodes|
    requires forall n :: 0 <= n < |w.nodes| ==>
               w'.nodes[n] == w.nodes[n] ||
               (!w.nodes[n].up && w'.nodes[n].s.live == map[] && w'.nodes[n].s.store == w.nodes[n].s.store
                && w'.nodes[n].s.net == w.nodes[n].s.store.file)
    ensures ConnInv(w')
  {
    forall m | 0 <= m < |w'.nodes| ensures RosterOk(w', m) {
      assert RosterOk(w, m);
      forall name | name in w'.nodes[m].s.live ensures NewestIsOpen(w', m, name, w'.nodes[m].s.live[name]) {
        SameConns(w, w', m, name, w.nodes[m].s.live[name]);
      }
    }
  }

  lemma DeviceFound(net: Network, key: Id)
    requires DevicesHoldOneKey(net) && DeviceByKey(net, key).Some?
    ensures HasDevice(net, net.devices[DeviceByKey(net, key).value].name, key)
  {
    var i := DeviceByKey(net, key).value;
    assert net.devices[i].keys == [key];
  }

  lemma CrashKeepsConnInv(w: World, n: nat)
    requires ConnInv(w) && n < |w.nodes|
    ensures ConnInv(Down(w, n, w.nodes[n].s.store))
  {
    assert RosterOk(w, n);
    DownKeepsConnInv(w, w.roles, n, w.nodes[n].s.store);
    assert w.(roles := w.roles) == w;
  }

  lemma DeviceStepKeepsConnInv(ok: Id -> bool, w: World, w': World, step: Step)
    requires ConnInv(w) && NextBy(ok, w, w', step) && (step.Register? || step.Close?)
    ensures ConnInv(w')
  {
    if step.Register? {
      var net := w.nodes[step.n].s.net;
      assert RosterOk(w, step.n);
      DeviceFound(net, step.key);
      RegisterKeepsConnInv(w, step.n, step.key, step.hints, w', net.devices[DeviceByKey(net, step.key).value].name);
    } else {
      CloseKeepsConnInv(w, w', step.conn);
    }
  }

  lemma CommandStepKeepsConnInv(ok: Id -> bool, w: World, w': World, step: Step)
    requires Inv(ok, w) && ConnInv(w) && NextBy(ok, w, w', step)
    requires step.Run? || step.CrashDuring? || step.Crash?
    ensures ConnInv(w')
  {
    match step
    case Run(n, cmd, saves) => RunKeepsConnInv(ok, w, n, cmd, saves);
    case CrashDuring(n, cmd, saves, writes) => CrashDuringKeepsConnInv(ok, w, n, cmd, saves, writes);
    case Crash(n) => CrashKeepsConnInv(w, n);
  }

  lemma QuietStepKeepsConnInv(ok: Id -> bool, w: World, w': World, step: Step)
    requires ConnInv(w) && NextBy(ok, w, w', step)
    requires step.Restart? || step.OutsideReply? || step.GiveUp? || step.Asks? || step.Tick?
    ensures ConnInv(w')
  {
    UntouchedKeepsConnInv(w, w');
  }

  lemma StepKeepsConnInv(ok: Id -> bool, w: World, w': World, step: Step)
    requires Inv(ok, w) && ConnInv(w) && NextBy(ok, w, w', step)
    ensures ConnInv(w')
  {
    if step.Run? || step.CrashDuring? || step.Crash? {
      CommandStepKeepsConnInv(ok, w, w', step);
    } else if step.Register? || step.Close? {
      DeviceStepKeepsConnInv(ok, w, w', step);
    } else {
      QuietStepKeepsConnInv(ok, w, w', step);
    }
  }

  lemma WorldKeepsConnInv(ok: Id -> bool, ws: seq<World>, steps: seq<Step>, i: nat)
    requires IsRun(ok, ws, steps) && i < |steps| && ConnInv(ws[i])
    ensures ConnInv(ws[i + 1])
  {
    RunsKeepInv(ok, ws, steps, i);
    StepOf(ok, ws, steps, i);
    StepKeepsConnInv(ok, ws[i], ws[i + 1], steps[i]);
  }

  lemma InitHasConnInv(ok: Id -> bool, w: World)
    requires Init(ok, w)
    ensures ConnInv(w)
  {
    forall n | 0 <= n < |w.nodes| ensures RosterOk(w, n) {
      assert FreshHome(ok, w, n);
    }
  }

  lemma RunsKeepConnInv(ok: Id -> bool, ws: seq<World>, steps: seq<Step>, i: nat)
    requires IsRun(ok, ws, steps) && i < |ws|
    ensures ConnInv(ws[i])
  {
    InitHasConnInv(ok, ws[0]);
    forall k | 0 <= k < i && ConnInv(ws[k]) ensures ConnInv(ws[k + 1]) {
      WorldKeepsConnInv(ok, ws, steps, k);
    }
    Onwards(ws, w => ConnInv(w), 0, i);
  }

  /** The dialling key of a connection was authenticated, so it decodes. */
  ghost predicate KeysDecode(ok: Id -> bool, w: World) {
    forall c :: c in w.conns ==> ok(w.conns[c].key)
  }

  lemma StepKeepsKeysDecoding(ok: Id -> bool, w: World, w': World, step: Step)
    requires NextBy(ok, w, w', step) && KeysDecode(ok, w)
    ensures KeysDecode(ok, w')
  {
    if step.Run? {
      var s := w.nodes[step.n].s;
      var o := Execute(ok, s.net, step.cmd, step.saves);
      RepliesFit(ok, s.net, step.cmd, step.saves);
      ResultConns(w, step.n, step.cmd, o, ApplyAll(s.store, o.writes));
    }
  }

  lemma RunsKeepKeysDecoding(ok: Id -> bool, ws: seq<World>, steps: seq<Step>, i: nat)
    requires IsRun(ok, ws, steps) && i < |ws|
    ensures KeysDecode(ok, ws[i])
  {
    forall k | 0 <= k < i && KeysDecode(ok, ws[k]) ensures KeysDecode(ok, ws[k + 1]) {
      StepOf(ok, ws, steps, k);
      StepKeepsKeysDecoding(ok, ws[k], ws[k + 1], steps[k]);
    }
    Onwards(ws, w => KeysDecode(ok, w), 0, i);
  }

  // -- what it gives ----------------------------------------------------------------------------------

  /** The roster is safe: a name in it is held by the newest of its registrations, still
      open, and the stored hints are the ones it gave. */
  lemma RosterIsSafe(ok: Id -> bool, ws: seq<World>, steps: seq<Step>, k: nat, n: nat, name: string)
    requires IsRun(ok, ws, steps) && k < |ws| && n < |ws[k].nodes| && name in ws[k].nodes[n].s.live
    ensures NewestIsOpen(ws[k], n, name, ws[k].nodes[n].s.live[name])
  {
    RunsKeepConnInv(ok, ws, steps, k);
    assert RosterOk(ws[k], n);
  }

  /** Resolution is coherent: the key and the hints handed out belong together. The hints
      were advertised on a connection still open, authenticated by exactly that key. */
  lemma ResolutionIsCoherent(ok: Id -> bool, ws: seq<World>, steps: seq<Step>, k: nat, n: nat, name: string, caller: Id)
    requires IsRun(ok, ws, steps) && k < |ws| && n < |ws[k].nodes|
    requires Locate(ok, ws[k].nodes[n].s, name, caller).Some?
    ensures
      var found := Locate(ok, ws[k].nodes[n].s, name, caller).value;
      exists id :: id in ws[k].conns && ws[k].conns[id] == Conn(n, found.device, DeviceAsker(name, found.hints))
  {
    RosterIsSafe(ok, ws, steps, k, n, name);
    RunsKeepConnInv(ok, ws, steps, k);
    RunsKeepInv(ok, ws, steps, k);
    assert StateOk(ws[k].roles, ws[k].answered, n, ws[k].nodes[n].s);
    FoundOnOpenConnection(ok, ws[k], n, name, caller);
  }

  lemma FoundOnOpenConnection(ok: Id -> bool, w: World, n: nat, name: string, caller: Id)
    requires ConnInv(w) && n < |w.nodes| && Sound(w.nodes[n].s.net)
    requires Locate(ok, w.nodes[n].s, name, caller).Some?
    requires NewestIsOpen(w, n, name, w.nodes[n].s.live[name])
    ensures
      var found := Locate(ok, w.nodes[n].s, name, caller).value;
      exists id :: id in w.conns && w.conns[id] == Conn(n, found.device, DeviceAsker(name, found.hints))
  {
    var id :| Registration(w, id, n, name) && w.conns[id].asker.hints == w.nodes[n].s.live[name];
    assert AskerOk(w.nodes[n].s.net, w.conns[id]);
    NamedDevice(w.nodes[n].s.net, w.conns[id].key, name);
  }

  lemma NamedDevice(net: Network, key: Id, name: string)
    requires Sound(net) && HasDevice(net, name, key)
    ensures DeviceByName(net, name).Some? && net.devices[DeviceByName(net, name).value].keys == [key]
  {
    var i :| 0 <= i < |net.devices| && net.devices[i].name == name && net.devices[i].keys == [key];
    assert DeviceByName(net, name) == Some(i);
  }

  /** Where a ticket's alias comes from: a named one from a connection whose dialling key is
      the counterpart of the entry of that name, or the key of the device of that name; one
      without a name is for the very key that asked, and that is a device of the issuer's. */
  lemma AliasHasProvenance(ok: Id -> bool, ws: seq<World>, steps: seq<Step>, k: nat, conn: nat, ask: Ask)
    requires IsRun(ok, ws, steps) && k < |steps| && steps[k] == Asks(conn, ask)
    requires conn in ws[k].conns && ws[k].conns[conn].node < |ws[k].nodes|
    requires ws[k].now + T.LIFETIME_SECS < T.U64_LIMIT
    requires TicketFor(ok, ws[k], conn, ask).Some?
    ensures
      var claims := TicketFor(ok, ws[k], conn, ask).value;
      var c := ws[k].conns[conn];
      var net := ws[k].nodes[c.node].s.net;
      match claims.alias
      case Some(alias) => GoesBy(net, c.key, alias)
      case None => claims.caller == c.key && exists name :: HasDevice(net, name, claims.caller)
  {
    RunsKeepConnInv(ok, ws, steps, k);
    assert AskerOk(ws[k].nodes[ws[k].conns[conn].node].s.net, ws[k].conns[conn]);
  }
}
