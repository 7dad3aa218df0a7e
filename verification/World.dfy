/** Daemons, their devices and everyone else, as a transition system.

    Any number of daemons run the commands of `Commands`, are stopped anywhere inside one, and
    start again. Hellos and replies may be lost, delayed past other steps, or delivered after
    the dialler has moved on. Anyone who is not one of our daemons may dial any of them with
    any key of their own and say anything, may answer a dial that reaches them, and may make
    up invites. What they cannot do is dial as a key whose secret a daemon holds, answer at an
    address a daemon holds, or hand a daemon an invite bearing an identity it has yet to
    welcome (`Awaited`). */
module World {
  import opened Wrappers
  import opened Proto
  import opened Network
  import opened Commands
  import T = Ticket

  /** Whose key it is and what it was minted for. Bookkeeping only: no daemon reads it. */
  datatype Role =
    | Address(node: nat)
    | PeerInvite(node: nat)
    | DeviceInvite(node: nat, name: string)
    | Dialler(node: nat, invitedTo: Id, genuine: bool)
    | Outside

  /** An `accept` between its two locked sections. */
  datatype Flight = Flight(node: nat, alias: string, invite: Invite, hello: Hello)

  datatype Conn = Conn(node: nat, key: Id, asker: Asker)

  datatype Node = Node(up: bool, s: State)

  datatype World = World(
    nodes: seq<Node>,
    now: nat,
    roles: map<Id, Role>,
    /** Invites made by a daemon. */
    invites: set<Invite>,
    /** Accepts in flight, by the identity minted for them. */
    flights: map<Id, Flight>,
    /** Every accept that ever set out: its hello may still arrive when it is over. */
    sent: map<Id, Flight>,
    /** Welcomes sent, with the dialling key they went to. */
    replies: set<(Id, Welcome)>,
    /** Which dialling keys were ever welcomed under which identity of the welcoming daemon. */
    answered: set<(Id, Id)>,
    /** Open greeted connections, numbered as they were greeted. */
    conns: map<nat, Conn>,
    nextConn: nat,
    /** What was ever signed with a handshake key. */
    tickets: set<T.Claims>)

  datatype Step =
    | Run(n: nat, cmd: Command, saves: bool)
    | CrashDuring(n: nat, cmd: Command, saves: bool, writes: nat)
    | Crash(n: nat)
    | Restart(n: nat)
    | OutsideReply(mine: Id, welcome: Welcome)
    | GiveUp(mine: Id)
    | Register(n: nat, key: Id, hints: seq<string>)
    | Close(conn: nat)
    | Asks(conn: nat, ask: Ask)
    | Tick

  // -- who may do what -------------------------------------------------------------------

  ghost predicate Genuine(roles: map<Id, Role>, id: Id) {
    id in roles && roles[id].Dialler? && roles[id].genuine
  }

  /** Daemon `n` has yet to welcome `id`, which was minted to accept an invite of its own. Only
      the minting daemon knows `id`, and dials nobody but `n` with it, so `n` is not handed an
      invite that bears it. Once `n` has welcomed it, anybody may make invites up that do, and
      everywhere else they may all along. */
  ghost predicate Awaited(roles: map<Id, Role>, answered: set<(Id, Id)>, n: nat, id: Id) {
    && Genuine(roles, id) && (roles[id].invitedTo, id) !in answered
    && var p := roles[id].invitedTo;
       p in roles && !roles[p].Outside? && roles[p].node == n
  }

  /** Some running daemon has an entry under identity `mine` that says to dial `address`. */
  ghost predicate EntryDials(w: World, address: Id, mine: Id) {
    exists a, i ::
      && 0 <= a < |w.nodes| && w.nodes[a].up && 0 <= i < |w.nodes[a].s.net.peers|
      && w.nodes[a].s.net.peers[i].mine == mine && address in w.nodes[a].s.net.peers[i].addresses
  }

  /** Who can have sent `hello` as `caller` to the daemon listening on `address`. */
  ghost predicate MayDial(w: World, address: Id, caller: Id, hello: Hello) {
    || (caller in w.sent && hello == w.sent[caller].hello && address in w.sent[caller].invite.addresses)
    || (hello.PeerHello? && EntryDials(w, address, caller))
    || caller !in w.roles
    || w.roles[caller].Outside?
  }

  ghost predicate Permitted(ok: Id -> bool, w: World, n: nat, cmd: Command)
    requires n < |w.nodes|
  {
    var s := w.nodes[n].s;
    match cmd
    case NewAddress(_, key) => ok(key) && key !in w.roles
    case MakeInvite(_, key, _) => ok(key) && key !in w.roles
    case MakeDeviceInvite(_, key, _) => ok(key) && key !in w.roles
    case BeginAccept(_, invite, key, _) =>
      && ok(key) && key !in w.roles && key != invite.identity
      && !Awaited(w.roles, w.answered, n, invite.identity)
    case CommitAccept(alias, invite, mine, addresses, dns) =>
      && mine in w.flights && w.flights[mine].node == n
      && w.flights[mine].alias == alias && w.flights[mine].invite == invite
      && exists theirs :: (mine, Ok(theirs, addresses, dns)) in w.replies
    case Greet(caller, on, hello) =>
      && ok(caller)
      && !(hello.DeviceHello? && DeviceByKey(s.net, caller).Some?)
      && exists e :: e in s.bound && e.alias == on && MayDial(w, e.key, caller, hello)
  }

  /** The identity of ours a greeting is answered under. */
  function AnsweredAs(net: Network, caller: Id, hello: Hello): Id
    requires !Recognise(net, caller, hello).Stranger?
  {
    match Recognise(net, caller, hello)
    case Known(i) => net.peers[i].mine
    case Enrols(i) => net.devices[i].invite.value
    case Pairs(i) => net.peers[i].mine
  }

  // -- the effect of a command ---------------------------------------------------------------

  ghost function MintedRole(w: World, n: nat, cmd: Command): Role
    requires Mints(cmd)
  {
    match cmd
    case NewAddress(_, _) => Address(n)
    case MakeInvite(_, _, _) => PeerInvite(n)
    case MakeDeviceInvite(name, _, _) => DeviceInvite(n, name)
    case BeginAccept(_, invite, _, _) => Dialler(n, invite.identity, invite in w.invites)
  }

  ghost function Introduce(roles: map<Id, Role>, id: Id): map<Id, Role> {
    if id in roles then roles else roles[id := Outside]
  }

  ghost function RolesAfter(w: World, n: nat, cmd: Command): map<Id, Role> {
    match cmd
    case CommitAccept(_, _, _, _, _) => w.roles
    case Greet(caller, _, _) => Introduce(w.roles, caller)
    case BeginAccept(_, invite, key, _) => Introduce(w.roles, invite.identity)[key := MintedRole(w, n, cmd)]
    case _ => w.roles[cmd.key := MintedRole(w, n, cmd)]
  }

  /** The world once daemon `n` has come to `o` and `store`: a reply is on its way, and with
      a welcome the connection it was given on is open. */
  ghost function Resulting(w: World, n: nat, cmd: Command, o: Outcome, store: Store): (w': World)
    requires n < |w.nodes|
    requires o.reply.Welcomed? ==>
               cmd.Greet? && !Recognise(w.nodes[n].s.net, cmd.caller, cmd.hello).Stranger? && o.reply.welcome.Ok?
    requires o.reply.Dialling? ==> cmd.BeginAccept?
    ensures |w'.nodes| == |w.nodes|
  {
    var s := w.nodes[n].s;
    var w1 := w.(nodes := w.nodes[n := Node(true, s.(net := o.net, store := store))], roles := RolesAfter(w, n, cmd));
    match o.reply
    case Issued(invite) => w1.(invites := w.invites + {invite})
    case Dialling(hello) =>
      var flight := Flight(n, cmd.alias, cmd.invite, hello);
      w1.(flights := w.flights[cmd.key := flight], sent := w.sent[cmd.key := flight])
    case Welcomed(welcome) =>
      w1.(replies := w.replies + {(cmd.caller, welcome)},
          answered := w.answered + {(AnsweredAs(s.net, cmd.caller, cmd.hello), cmd.caller)},
          conns := w.conns[w.nextConn := Conn(n, cmd.caller, PeerAsker(welcome.alias))],
          nextConn := w.nextConn + 1)
    case Created(_) => w1
    case Accepted(_) => if cmd.CommitAccept? then w1.(flights := w.flights - {cmd.mine}) else w1
    case Refused => if cmd.CommitAccept? then w1.(flights := w.flights - {cmd.mine}) else w1
  }

  ghost function Ran(ok: Id -> bool, w: World, n: nat, cmd: Command, saves: bool): (w': World)
    requires n < |w.nodes|
    ensures |w'.nodes| == |w.nodes|
  {
    var s := w.nodes[n].s;
    var o := Execute(ok, s.net, cmd, saves);
    Resulting(w, n, cmd, o, ApplyAll(s.store, o.writes))
  }

  ghost function Down(w: World, n: nat, store: Store): (w': World)
    requires n < |w.nodes|
    ensures |w'.nodes| == |w.nodes|
  {
    w.(nodes := w.nodes[n := Node(false, State(store.file, store, [], map[]))],
       flights := map m | m in w.flights && w.flights[m].node != n :: w.flights[m],
       conns := map c | c in w.conns && w.conns[c].node != n :: w.conns[c])
  }

  // -- resolution ------------------------------------------------------------------------------

  /** The claims of the ticket minted in answer to an ask, if one is. */
  ghost function TicketFor(ok: Id -> bool, w: World, conn: nat, ask: Ask): Option<T.Claims>
    requires conn in w.conns && w.conns[conn].node < |w.nodes|
    requires w.now + T.LIFETIME_SECS < T.U64_LIMIT
  {
    var c := w.conns[conn];
    Granted(ok, w.nodes[c.node].s, w.now, c.asker, c.key, ask)
  }

  // -- steps --------------------------------------------------------------------------------------

  ghost predicate NextBy(ok: Id -> bool, w: World, w': World, step: Step) {
    match step
    case Run(n, cmd, saves) =>
      && n < |w.nodes| && w.nodes[n].up && Permitted(ok, w, n, cmd)
      && w' == Ran(ok, w, n, cmd, saves)
    case CrashDuring(n, cmd, saves, writes) =>
      && n < |w.nodes| && w.nodes[n].up && Permitted(ok, w, n, cmd)
      && writes <= |Execute(ok, w.nodes[n].s.net, cmd, saves).writes|
      && w' == Down(w.(roles := RolesAfter(w, n, cmd)), n,
                    Stopped(ok, w.nodes[n].s.net, cmd, saves, w.nodes[n].s.store, writes))
    case Crash(n) => n < |w.nodes| && w' == Down(w, n, w.nodes[n].s.store)
    case Restart(n) =>
      && n < |w.nodes| && !w.nodes[n].up && Starts(ok, w.nodes[n].s.store)
      && w' == w.(nodes := w.nodes[n := Node(true, Started(w.nodes[n].s.store))])
    case OutsideReply(mine, welcome) =>
      && mine in w.flights
      && (exists a :: a in w.flights[mine].invite.addresses && !(a in w.roles && w.roles[a].Address?))
      && w' == w.(replies := w.replies + {(mine, welcome)})
    case GiveUp(mine) => w' == w.(flights := w.flights - {mine})
    case Register(n, key, hints) =>
      && n < |w.nodes| && w.nodes[n].up && ok(key) && (key !in w.roles || w.roles[key].Outside?)
      && DeviceByKey(w.nodes[n].s.net, key).Some?
      && var s := w.nodes[n].s;
         var name := s.net.devices[DeviceByKey(s.net, key).value].name;
         w' == w.(nodes := w.nodes[n := Node(true, AfterRegister(s, key, hints))],
                  roles := Introduce(w.roles, key),
                  conns := w.conns[w.nextConn := Conn(n, key, DeviceAsker(name, hints))],
                  nextConn := w.nextConn + 1)
    case Close(conn) =>
      && conn in w.conns && w.conns[conn].node < |w.nodes|
      && var c := w.conns[conn];
         var s := w.nodes[c.node].s;
         var s' := if c.asker.DeviceAsker? then AfterDepart(s, c.asker.name) else s;
         w' == w.(nodes := w.nodes[c.node := w.nodes[c.node].(s := s')], conns := w.conns - {conn})
    case Asks(conn, ask) =>
      && conn in w.conns && w.conns[conn].node < |w.nodes|
      && w.now + T.LIFETIME_SECS < T.U64_LIMIT
      && var minted := TicketFor(ok, w, conn, ask);
         w' == if minted.Some? then w.(tickets := w.tickets + {minted.value}) else w
    case Tick => w' == w.(now := w.now + 1)
  }

  /** Every home was made by `init`, each with a key of its own, and every daemon started. */
  ghost predicate Init(ok: Id -> bool, w: World) {
    && (forall i :: 0 <= i < |w.nodes| ==> FreshHome(ok, w, i))
    && (forall k :: k in w.roles ==> ok(k) && w.roles[k].Address? && w.roles[k].node < |w.nodes|)
    && w.invites == {} && w.flights == map[] && w.sent == map[] && w.replies == {} && w.answered == {}
    && w.conns == map[] && w.nextConn == 0 && w.tickets == {}
  }

  ghost predicate FreshHome(ok: Id -> bool, w: World, i: nat)
    requires i < |w.nodes|
  {
    exists key :: Founded(ok, w, i, key)
  }

  ghost predicate Founded(ok: Id -> bool, w: World, i: nat, key: Id)
    requires i < |w.nodes|
  {
    ok(key) && key in w.roles && w.roles[key] == Address(i) && w.nodes[i] == Node(true, Started(InitialStore(key)))
  }

  ghost predicate StepAt(ok: Id -> bool, ws: seq<World>, steps: seq<Step>, i: nat)
    requires |ws| == |steps| + 1 && i < |steps|
  {
    NextBy(ok, ws[i], ws[i + 1], steps[i])
  }

  /** A run: worlds one step apart, from an initial one. */
  ghost predicate IsRun(ok: Id -> bool, ws: seq<World>, steps: seq<Step>) {
    && |ws| == |steps| + 1 && Init(ok, ws[0])
    && forall i :: 0 <= i < |steps| ==> StepAt(ok, ws, steps, i)
  }

  lemma StepOf(ok: Id -> bool, ws: seq<World>, steps: seq<Step>, i: nat)
    requires IsRun(ok, ws, steps) && i < |steps|
    ensures NextBy(ok, ws[i], ws[i + 1], steps[i])
  {
    assert StepAt(ok, ws, steps, i);
  }

  /** What one world of a run passes on to the next holds from there on. */
  lemma {:induction false} Onwards(ws: seq<World>, p: World -> bool, i: nat, j: nat)
    requires i <= j < |ws| && p(ws[i])
    requires forall k :: i <= k < j && p(ws[k]) ==> p(ws[k + 1])
    ensures p(ws[j])
    decreases j
  {
    if i < j {
      Onwards(ws, p, i, j - 1);
    }
  }
}
