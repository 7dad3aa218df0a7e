/** What each lock-held step of a daemon does to it: the memory, the files, the reply.

    `saves` says whether the operating system let the step write `network.toml`; `key` is
    the key the step mints, if it mints one. */
module Commands {
  import opened Wrappers
  import opened Proto
  import opened Network
  import T = Ticket

  // -- what survives a crash ----------------------------------------------------------

  datatype Temp = Absent | Torn | Whole(net: Network)

  /** `network.toml`, `network.toml.tmp`, and the ids whose key file is in place. */
  datatype Store = Store(file: Network, temp: Temp, keys: set<Id>)

  datatype Write =
    | KeyFile(key: Id)
    | OpenTemp
    | FillTemp(net: Network)
    | Rename

  function Apply(store: Store, write: Write): Store {
    match write
    case KeyFile(key) => store.(keys := store.keys + {key})
    case OpenTemp => store.(temp := Torn)
    case FillTemp(net) => store.(temp := Whole(net))
    case Rename => if store.temp.Whole? then store.(file := store.temp.net, temp := Absent) else store
  }

  function ApplyAll(store: Store, writes: seq<Write>): Store
    decreases |writes|
  {
    if writes == [] then store else ApplyAll(Apply(store, writes[0]), writes[1..])
  }

  function SaveWrites(net: Network, saves: bool): seq<Write> {
    if saves then [OpenTemp, FillTemp(net), Rename] else [OpenTemp]
  }

  // -- a running daemon ------------------------------------------------------------------

  /** A bound handshake key, under the alias it had when the daemon started. */
  datatype Endpoint = Endpoint(alias: string, key: Id)

  datatype State = State(
    net: Network, store: Store, bound: seq<Endpoint>, live: map<string, seq<string>>)

  datatype Command =
    | NewAddress(alias: string, key: Id)
    | MakeInvite(alias: string, key: Id, hints: seq<string>)
    | MakeDeviceInvite(name: string, key: Id, hints: seq<string>)
    | BeginAccept(alias: string, invite: Invite, key: Id, hints: seq<string>)
    | CommitAccept(alias: string, invite: Invite, mine: Id, addresses: seq<Id>, dns: seq<string>)
    | Greet(caller: Id, on: string, hello: Hello)

  datatype Reply =
    | Refused
    | Created(key: Id)
    | Issued(invite: Invite)
    | Dialling(hello: Hello)
    | Accepted(alias: string)
    | Welcomed(welcome: Welcome)

  datatype Outcome = Outcome(net: Network, writes: seq<Write>, reply: Reply)

  // -- the greeting ----------------------------------------------------------------------

  datatype Greeting =
    | Known(index: nat)
    | Enrols(index: nat)
    | Pairs(index: nat)
    | Stranger

  /** Whom the dialling key and the hello make the caller, and the entry it concerns. The
      caller's word counts only for a key that no entry holds. */
  function Recognise(net: Network, caller: Id, hello: Hello): Greeting {
    match PeerByKey(net, caller)
    case Some(i) => Known(i)
    case None =>
      if !hello.Invited? then Stranger
      else
        match PendingDeviceByInvite(net, hello.invitedTo)
        case Some(i) => Enrols(i)
        case None =>
          match PendingByMine(net, hello.invitedTo)
          case Some(i) => Pairs(i)
          case None => Stranger
  }

  /** The net a recognised caller leaves behind. Entries are found again by alias or name,
      so it is the first of that alias or name that changes. */
  function Greeted(net: Network, caller: Id, on: string, hello: Hello): Network
    requires !Recognise(net, caller, hello).Stranger?
  {
    match Recognise(net, caller, hello)
    case Known(i) =>
      var j := PeerByAlias(net, net.peers[i].alias).value;
      net.(peers := net.peers[j := net.peers[j].(reachedOn := Some(on))])
    case Enrols(i) =>
      var j := DeviceByName(net, net.devices[i].name).value;
      net.(devices := net.devices[j := net.devices[j].(keys := [caller], invite := None)])
    case Pairs(i) =>
      var j := PeerByAlias(net, net.peers[i].alias).value;
      net.(peers := net.peers[j := net.peers[j].(
        peer := Some(caller), addresses := hello.addresses, dns := hello.dns,
        hints := hello.hints, reachedOn := Some(on))])
  }

  function AnswersTo(net: Network, caller: Id, hello: Hello): string
    requires !Recognise(net, caller, hello).Stranger?
  {
    match Recognise(net, caller, hello)
    case Known(i) => net.peers[i].alias
    case Enrols(i) => net.devices[i].name
    case Pairs(i) => net.peers[i].alias
  }

  // -- every command -----------------------------------------------------------------------

  predicate Mints(cmd: Command) {
    cmd.NewAddress? || cmd.MakeInvite? || cmd.MakeDeviceInvite? || cmd.BeginAccept?
  }

  /** Turned away before anything is minted or changed. */
  predicate TurnedAway(net: Network, cmd: Command) {
    match cmd
    case NewAddress(alias, _) => HandshakeByAlias(net, alias).Some?
    case MakeInvite(alias, _, _) => PeerByAlias(net, alias).Some?
    case MakeDeviceInvite(name, _, _) => DeviceByName(net, name).Some?
    case BeginAccept(alias, _, _, _) => PeerByAlias(net, alias).Some?
    case CommitAccept(_, _, _, _, _) => false
    case Greet(caller, _, hello) => Recognise(net, caller, hello).Stranger?
  }

  /** The net in memory after a command. */
  function NextNet(net: Network, cmd: Command): Network {
    if TurnedAway(net, cmd) then net
    else
      match cmd
      case NewAddress(alias, key) =>
        net.(handshakeKeys := net.handshakeKeys + [HandshakeKey(alias, key, false)])
      case MakeInvite(alias, key, _) =>
        net.(peers := net.peers + [Peer(alias, None, key, [], [], [], None)])
      case MakeDeviceInvite(name, key, _) =>
        net.(devices := net.devices + [Device(name, [], Some(key))])
      case BeginAccept(_, _, _, _) => net
      case CommitAccept(alias, invite, mine, addresses, dns) =>
        net.(peers := net.peers + [Peer(alias, Some(invite.identity), mine, addresses, dns, invite.hints, None)])
      case Greet(caller, on, hello) => Greeted(net, caller, on, hello)
  }

  /** Is the changed net checked before it is written? Not for a new address, nor when a known
      caller only arrives somewhere. */
  predicate Checked(net: Network, cmd: Command) {
    !cmd.NewAddress? && !(cmd.Greet? && Recognise(net, cmd.caller, cmd.hello).Known?)
  }

  /** The reply when all goes well. */
  function ReplyTo(net: Network, cmd: Command): Reply
    requires !TurnedAway(net, cmd)
  {
    match cmd
    case NewAddress(_, key) => Created(key)
    case MakeInvite(_, key, hints) => Issued(Invite(CurrentAddresses(net), net.dns, key, hints))
    case MakeDeviceInvite(_, key, hints) => Issued(Invite(CurrentAddresses(net), net.dns, key, hints))
    case BeginAccept(_, invite, _, hints) =>
      Dialling(Invited(invite.identity, CurrentAddresses(net), net.dns, hints))
    case CommitAccept(alias, _, _, _, _) => Accepted(alias)
    case Greet(caller, _, hello) =>
      Welcomed(Ok(AnswersTo(net, caller, hello), CurrentAddresses(net), net.dns))
  }

  /** A command mints first, keeps the changed net in memory, writes it out if it need not be
      checked or passes the check, and answers only once it is written. Refusing the changed
      net, or failing to write it, leaves the change in memory. */
  ghost function Execute(ok: Id -> bool, net: Network, cmd: Command, saves: bool): Outcome {
    var minting := if Mints(cmd) then [KeyFile(cmd.key)] else [];
    var net' := NextNet(net, cmd);
    if TurnedAway(net, cmd) then Outcome(net, [], Refused)
    else if cmd.BeginAccept? then Outcome(net, minting, ReplyTo(net, cmd))
    else if Checked(net, cmd) && !Valid(ok, net') then Outcome(net', minting, Refused)
    else Outcome(net', minting + SaveWrites(net', saves), if saves then ReplyTo(net, cmd) else Refused)
  }

  lemma NetOf(ok: Id -> bool, net: Network, cmd: Command, saves: bool)
    ensures Execute(ok, net, cmd, saves).net == NextNet(net, cmd)
  {
  }

  // -- start and init ------------------------------------------------------------------------

  /** `Daemon::start` succeeds: the file passes the check, every handshake key, retired ones
      too, has its secret, and there is at least one. */
  ghost predicate Starts(ok: Id -> bool, store: Store) {
    && Valid(ok, store.file)
    && (forall i :: 0 <= i < |store.file.handshakeKeys| ==> store.file.handshakeKeys[i].key in store.keys)
    && store.file.handshakeKeys != []
  }

  function Endpoints(keys: seq<HandshakeKey>): (bound: seq<Endpoint>)
    ensures |bound| == |keys|
    ensures forall i :: 0 <= i < |keys| ==> bound[i] == Endpoint(keys[i].alias, keys[i].key)
  {
    seq(|keys|, i requires 0 <= i < |keys| => Endpoint(keys[i].alias, keys[i].key))
  }

  function Started(store: Store): State {
    State(store.file, store, Endpoints(store.file.handshakeKeys), map[])
  }

  /** What `init` leaves in a fresh home directory. */
  function InitialStore(key: Id): Store {
    Store(EMPTY.(handshakeKeys := [HandshakeKey("default", key, false)]), Absent, {key})
  }

  // -- resolution ------------------------------------------------------------------------------

  datatype Found = Found(device: Id, hints: seq<string>, issuer: Id)

  /** The device of that name, if it has enrolled and is connected, where it listens, and the
      address to sign with. */
  ghost function Locate(ok: Id -> bool, s: State, name: string, caller: Id): Option<Found> {
    match DeviceByName(s.net, name)
    case None => None
    case Some(i) =>
      if s.net.devices[i].keys == [] || name !in s.live then None
      else
        var addresses := CurrentAddresses(s.net);
        if addresses == [] || addresses[0] !in s.store.keys || !ok(caller) then None
        else Some(Found(s.net.devices[i].keys[0], s.live[name], addresses[0]))
  }

  /** Who is at the other end of a greeted connection. A device said where it listens. */
  datatype Asker = PeerAsker(alias: string) | DeviceAsker(name: string, hints: seq<string>)

  datatype Ask =
    | Resolve(name: string, caller: Id)
    | ResolveLocal(name: string)
    | ResolveFor(name: string, alias: string)

  datatype Say = Resolved(device: Id, hints: seq<string>, ticket: T.Ticket) | Denied

  /** What an ask about our own devices comes to: the name and key a ticket would be for, and
      the alias it would carry. `key` is the asker's dialling key. */
  function Wanted(asker: Asker, key: Id, ask: Ask): Option<(string, Id, Option<string>)> {
    match (ask, asker)
    case (Resolve(name, caller), PeerAsker(alias)) => Some((name, caller, Some(alias)))
    case (ResolveLocal(name), DeviceAsker(_, _)) => Some((name, key, None))
    case _ => None
  }

  /** The claims of the ticket minted in answer to an ask, if one is. */
  ghost function Granted(ok: Id -> bool, s: State, now: nat, asker: Asker, key: Id, ask: Ask): Option<T.Claims>
    requires now + T.LIFETIME_SECS < T.U64_LIMIT
  {
    match Wanted(asker, key, ask)
    case None => None
    case Some((name, caller, alias)) =>
      match Locate(ok, s, name, caller)
      case None => None
      case Some(found) => Some(T.Claims(name, caller, alias, now + T.LIFETIME_SECS, found.issuer))
  }

  /** What the asker is told: where the device is and a sealed ticket, or nothing. */
  ghost function Told(ok: Id -> bool, scheme: T.Scheme, s: State, now: nat, asker: Asker, key: Id, ask: Ask): Say
    requires now + T.LIFETIME_SECS < T.U64_LIMIT
  {
    match Granted(ok, s, now, asker, key, ask)
    case None => Denied
    case Some(claims) =>
      var found := Locate(ok, s, claims.name, claims.caller).value;
      Resolved(found.device, found.hints, T.Seal(scheme, claims))
  }

  // -- which devices are connected ---------------------------------------------------------------

  /** A connection authenticated by a key of one of our devices claims that device's name. */
  function AfterRegister(s: State, key: Id, hints: seq<string>): (s': State)
    ensures s' == s.(live := s'.live)
  {
    match DeviceByKey(s.net, key)
    case None => s
    case Some(i) => s.(live := s.live[s.net.devices[i].name := hints])
  }

  /** The end of a connection on which `name` was claimed takes the name away. */
  function AfterDepart(s: State, name: string): State {
    s.(live := s.live - {name})
  }

  // -- one-way growth ------------------------------------------------------------------------

  ghost predicate PeerGrown(a: Peer, b: Peer) {
    a.alias == b.alias && a.mine == b.mine && (a.peer.Some? ==> b.peer == a.peer)
  }

  ghost predicate DeviceGrown(a: Device, b: Device) {
    && a.name == b.name
    && ((a.keys == b.keys && a.invite == b.invite) ||
        (a.keys == [] && |b.keys| == 1 && b.invite.None?))
  }

  /** Entries are only added; an alias, an identity and a name never change; a counterpart is
      recorded once; a device goes from no key to one key once, losing its invite. */
  ghost predicate Grown(a: Network, b: Network) {
    && a.handshakeKeys <= b.handshakeKeys
    && |a.peers| <= |b.peers| && |a.devices| <= |b.devices|
    && (forall i :: 0 <= i < |a.peers| ==> PeerGrown(a.peers[i], b.peers[i]))
    && (forall i :: 0 <= i < |a.devices| ==> DeviceGrown(a.devices[i], b.devices[i]))
  }

  /** Nothing `check` tests, and what makes finding an entry again by alias safe: an entry
      still waiting is the first of its alias, and device names are distinct. */
  ghost predicate Sound(net: Network) {
    && (forall i, j :: 0 <= j < i < |net.peers| && net.peers[i].peer.None? ==>
          net.peers[j].alias != net.peers[i].alias)
    && (forall i, j :: 0 <= j < i < |net.devices| ==> net.devices[j].name != net.devices[i].name)
  }

  lemma GrownTransitive(a: Network, b: Network, c: Network)
    requires Grown(a, b) && Grown(b, c)
    ensures Grown(a, c)
  {
    forall i | 0 <= i < |a.peers| ensures PeerGrown(a.peers[i], c.peers[i]) {
      assert PeerGrown(a.peers[i], b.peers[i]) && PeerGrown(b.peers[i], c.peers[i]);
    }
    forall i | 0 <= i < |a.devices| ensures DeviceGrown(a.devices[i], c.devices[i]) {
      assert DeviceGrown(a.devices[i], b.devices[i]) && DeviceGrown(b.devices[i], c.devices[i]);
    }
  }

  /** A recognised caller changes one entry: a known one nothing but where it arrived, an
      invited one the entry its invite was made for, which was waiting. */
  lemma GreetingTouchesOneEntry(net: Network, caller: Id, on: string, hello: Hello)
    requires Sound(net) && !Recognise(net, caller, hello).Stranger?
    ensures var net' := Greeted(net, caller, on, hello);
      match Recognise(net, caller, hello)
      case Known(i) =>
        && net'.devices == net.devices && |net'.peers| == |net.peers|
        && net.peers[i].peer == Some(caller)
        && forall j :: 0 <= j < |net.peers| ==>
             net'.peers[j] == net.peers[j] ||
             net'.peers[j] == net.peers[j].(reachedOn := Some(on))
      case Enrols(i) =>
        && net'.peers == net.peers
        && net.devices[i].keys == [] && net.devices[i].invite == Some(hello.invitedTo)
        && net'.devices == net.devices[i := Device(net.devices[i].name, [caller], None)]
      case Pairs(i) =>
        && net'.devices == net.devices
        && net.peers[i].peer.None? && net.peers[i].mine == hello.invitedTo
        && net'.peers == net.peers[i := Peer(net.peers[i].alias, Some(caller), hello.invitedTo,
                                             hello.addresses, hello.dns, hello.hints, Some(on))]
    ensures Greeted(net, caller, on, hello).handshakeKeys == net.handshakeKeys
    ensures Greeted(net, caller, on, hello).dns == net.dns
  {
    match Recognise(net, caller, hello)
    case Known(i) =>
    case Enrols(i) =>
      assert DeviceByName(net, net.devices[i].name) == Some(i);
    case Pairs(i) =>
      assert PeerByAlias(net, net.peers[i].alias) == Some(i);
  }

  /** A known caller is welcomed whatever it says, and the net written without a check. */
  lemma KnownIsWelcomed(ok: Id -> bool, net: Network, caller: Id, on: string, hello: Hello)
    requires Recognise(net, caller, hello).Known?
    ensures
      var net' := Greeted(net, caller, on, hello);
      Execute(ok, net, Greet(caller, on, hello), true)
        == Outcome(net', SaveWrites(net', true),
                   Welcomed(Ok(AnswersTo(net, caller, hello), CurrentAddresses(net), net.dns)))
  {
    assert [] + SaveWrites(Greeted(net, caller, on, hello), true) == SaveWrites(Greeted(net, caller, on, hello), true);
  }

  /** Whatever a caller says and whether or not the step succeeds, a command only grows the
      net, and keeps it sound. */
  lemma CommandGrows(ok: Id -> bool, net: Network, cmd: Command, saves: bool)
    requires Sound(net)
    ensures Grown(net, Execute(ok, net, cmd, saves).net)
    ensures Sound(Execute(ok, net, cmd, saves).net)
  {
    NetOf(ok, net, cmd, saves);
    NextNetGrows(net, cmd);
  }

  lemma NextNetGrows(net: Network, cmd: Command)
    requires Sound(net)
    ensures Grown(net, NextNet(net, cmd)) && Sound(NextNet(net, cmd))
  {
    if !TurnedAway(net, cmd) {
      if cmd.Greet? {
        GreetingGrows(net, cmd.caller, cmd.on, cmd.hello);
      } else if !cmd.BeginAccept? {
        PushGrows(net, NextNet(net, cmd));
      }
    }
  }

  lemma GreetingGrows(net: Network, caller: Id, on: string, hello: Hello)
    requires Sound(net) && !Recognise(net, caller, hello).Stranger?
    ensures Grown(net, Greeted(net, caller, on, hello)) && Sound(Greeted(net, caller, on, hello))
  {
    GreetingTouchesOneEntry(net, caller, on, hello);
    var net' := Greeted(net, caller, on, hello);
    assert forall i :: 0 <= i < |net.peers| ==> PeerGrown(net.peers[i], net'.peers[i]);
    assert forall i :: 0 <= i < |net.devices| ==> DeviceGrown(net.devices[i], net'.devices[i]);
    GrownInPlaceIsSound(net, net');
  }

  lemma GrownInPlaceIsSound(net: Network, net': Network)
    requires Sound(net) && Grown(net, net') && |net'.peers| == |net.peers| && |net'.devices| == |net.devices|
    ensures Sound(net')
  {
    assert forall i :: 0 <= i < |net.peers| ==> PeerGrown(net.peers[i], net'.peers[i]);
    assert forall i :: 0 <= i < |net.devices| ==> DeviceGrown(net.devices[i], net'.devices[i]);
  }

  ghost predicate Pushes(net: Network, net': Network) {
    || (exists k :: net' == net.(handshakeKeys := net.handshakeKeys + [k]))
    || (exists p: Peer :: net' == net.(peers := net.peers + [p]) && (p.peer.Some? || PeerByAlias(net, p.alias).None?))
    || (exists d: Device :: net' == net.(devices := net.devices + [d]) && DeviceByName(net, d.name).None?)
  }

  lemma PushGrows(net: Network, net': Network)
    requires Sound(net) && Pushes(net, net')
    ensures Grown(net, net') && Sound(net')
  {
  }

  /** The one identity a command may bring into the net. */
  function Brings(cmd: Command): set<Id> {
    if Mints(cmd) then {cmd.key} else if cmd.CommitAccept? then {cmd.mine} else {}
  }

  /** Every key of ours in the grown net was there before or is one of `ids`. */
  ghost predicate Brought(a: Network, b: Network, ids: set<Id>) {
    && Grown(a, b)
    && (forall i :: |a.handshakeKeys| <= i < |b.handshakeKeys| ==> b.handshakeKeys[i].key in ids)
    && (forall i :: |a.peers| <= i < |b.peers| ==> b.peers[i].mine in ids)
    && (forall i :: |a.devices| <= i < |b.devices| ==> b.devices[i].invite.Some? && b.devices[i].invite.value in ids)
  }

  lemma CommandBrings(ok: Id -> bool, net: Network, cmd: Command, saves: bool)
    requires Sound(net)
    ensures Brought(net, Execute(ok, net, cmd, saves).net, Brings(cmd))
  {
    NetOf(ok, net, cmd, saves);
    NextNetGrows(net, cmd);
    if cmd.Greet? && !TurnedAway(net, cmd) {
      GreetingTouchesOneEntry(net, cmd.caller, cmd.on, cmd.hello);
    }
  }

  // -- crashing in the middle ------------------------------------------------------------------

  lemma {:induction false} StoppedSave(store: Store, net: Network, saves: bool, n: nat)
    requires n <= |SaveWrites(net, saves)|
    ensures ApplyAll(store, SaveWrites(net, saves)[..n]).keys == store.keys
    ensures ApplyAll(store, SaveWrites(net, saves)[..n]).file == if n == 3 then net else store.file
  {
    var writes := SaveWrites(net, saves)[..n];
    var one := Apply(store, OpenTemp);
    var two := Apply(one, FillTemp(net));
    if n == 1 {
      assert writes[1..] == [];
    } else if n == 2 {
      assert writes[1..] == [FillTemp(net)];
      assert writes[1..][1..] == [];
      assert ApplyAll(one, writes[1..]) == two;
    } else if n == 3 {
      assert writes[1..] == [FillTemp(net), Rename];
      assert writes[1..][1..] == [Rename];
      assert writes[1..][1..][1..] == [];
      assert ApplyAll(two, [Rename]) == Apply(two, Rename);
      assert ApplyAll(one, writes[1..]) == Apply(two, Rename);
    }
  }

  /** The store after the first `n` writes of a command. */
  ghost function Stopped(ok: Id -> bool, net: Network, cmd: Command, saves: bool, store: Store, n: nat): Store
    requires n <= |Execute(ok, net, cmd, saves).writes|
  {
    ApplyAll(store, Execute(ok, net, cmd, saves).writes[..n])
  }

  /** The file is replaced whole or not at all, and a key file is in place before any file
      that could name its key. Stopping a command after any number of its writes leaves the
      old file, perhaps with the new key's file beside it, or the new file with it. A reply
      other than a refusal leaves only after the file holds what it is about. */
  lemma CrashPoints(ok: Id -> bool, net: Network, cmd: Command, saves: bool, store: Store, n: nat)
    requires n <= |Execute(ok, net, cmd, saves).writes|
    ensures
      var o := Execute(ok, net, cmd, saves);
      var torn := Stopped(ok, net, cmd, saves, store, n);
      && (torn.file == store.file || torn.file == o.net)
      && (torn.keys == store.keys || (Mints(cmd) && torn.keys == store.keys + {cmd.key}))
      && (torn.file != store.file && Mints(cmd) ==> cmd.key in torn.keys)
      && (n == |o.writes| && !o.reply.Refused? && !o.reply.Dialling? ==> torn.file == o.net)
      && (n == |o.writes| && o.net != net && Mints(cmd) ==> cmd.key in torn.keys)
  {
    var o := Execute(ok, net, cmd, saves);
    if o.writes == [] {
    } else if Mints(cmd) {
      assert o.writes[0] == KeyFile(cmd.key);
      if n > 0 {
        assert o.writes[..n][0] == KeyFile(cmd.key);
        if |o.writes| == 1 {
          assert o.writes[..n][1..] == [];
          assert ApplyAll(Apply(store, KeyFile(cmd.key)), []) == Apply(store, KeyFile(cmd.key));
        } else {
          var rest := SaveWrites(o.net, saves);
          assert o.writes == [KeyFile(cmd.key)] + rest;
          assert o.writes[..n][1..] == rest[..n - 1];
          StoppedSave(Apply(store, KeyFile(cmd.key)), o.net, saves, n - 1);
        }
      }
    } else {
      assert o.writes == SaveWrites(o.net, saves);
      StoppedSave(store, o.net, saves, n);
    }
  }
}
