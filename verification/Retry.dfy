/** Taking up an invite over a network that loses things: the retry loops of `accept` and of a
    device enrolling, and exactly when they succeed. */
module Retry {
  import opened Wrappers
  import opened Proto
  import opened Network
  import opened Commands
  import opened Effects
  import D = Daemon
  import T = Ticket
  import Restart

  /** What becomes of one attempt: nothing arrives, or the hello arrives on one of their
      addresses, their file can be written or not, and the reply comes back or not. */
  datatype Trip = Lost | Arrives(on: string, saves: bool, replied: bool)

  datatype Tried = Tried(net: Network, welcome: Option<Welcome>)

  /** The addresses tried in turn until one welcomes us: the inviter's net afterwards and the
      welcome that came back. An address that does not decode ends the attempt; `stopsAtNo`
      says whether a refusal does. */
  ghost function Tries(ok: Id -> bool, net: Network, caller: Id, hello: Hello,
                       addresses: seq<Id>, trips: seq<Trip>, stopsAtNo: bool): Tried
    requires |trips| == |addresses|
    decreases |addresses|
  {
    if addresses == [] || !ok(addresses[0]) then Tried(net, None)
    else if trips[0].Lost? then Tries(ok, net, caller, hello, addresses[1..], trips[1..], stopsAtNo)
    else
      var o := Execute(ok, net, Command.Greet(caller, trips[0].on, hello), trips[0].saves);
      if trips[0].replied && o.reply.Welcomed? then Tried(o.net, Some(o.reply.welcome))
      else if trips[0].replied && stopsAtNo then Tried(o.net, None)
      else Tries(ok, o.net, caller, hello, addresses[1..], trips[1..], stopsAtNo)
  }

  /** `accept`, with the inviter at the other end. */
  method Accept(acceptor: D.Daemon, inviter: D.Daemon, alias: string, invite: Invite, key: Id,
                hints: seq<string>, trips: seq<Trip>, saves: bool) returns (reply: Reply)
    requires acceptor != inviter && acceptor.ok == inviter.ok && |trips| == |invite.addresses|
    modifies acceptor, inviter
    ensures PeerByAlias(old(acceptor.net), alias).Some? ==>
              reply == Refused && acceptor.net == old(acceptor.net) && inviter.net == old(inviter.net)
    ensures PeerByAlias(old(acceptor.net), alias).None? ==>
              var hello := Invited(invite.identity, CurrentAddresses(old(acceptor.net)), old(acceptor.net).dns, hints);
              var tried := Tries(acceptor.ok, old(inviter.net), key, hello, invite.addresses, trips, false);
              && inviter.net == tried.net
              && (tried.welcome.None? ==> reply == Refused && acceptor.net == old(acceptor.net))
              && (tried.welcome.Some? ==>
                    && inviter.file == inviter.net
                    && Committed(acceptor.ok, old(acceptor.net), alias, invite, key, tried.welcome.value, saves,
                                 acceptor.net, reply))
    ensures acceptor.file == if reply.Accepted? then acceptor.net else old(acceptor.file)
    ensures acceptor.keys
            == if HasAlias(old(acceptor.net), alias) then old(acceptor.keys) else old(acceptor.keys) + {key}
    ensures inviter.net.dns == old(inviter.net).dns && inviter.net.handshakeKeys == old(inviter.net).handshakeKeys
    ensures reply.Accepted? ==>
              && reply.alias == alias && GainsPeer(old(acceptor.net), acceptor.net)
              && PeerByAlias(acceptor.net, alias) == Some(|old(acceptor.net).peers|)
              && IsAccepted(acceptor.net.peers[|old(acceptor.net).peers|], alias, invite, key,
                            CurrentAddresses(old(inviter.net)), old(inviter.net).dns)
  {
    OnlyMinted(acceptor.ok, acceptor.net, alias, invite, key, hints, acceptor.OnDisk());
    var begun := acceptor.BeginAccept(alias, invite, key, hints);
    if !begun.Dialling? {
      return Refused;
    }
    var hello := begun.hello;
    ghost var addresses := invite.addresses;
    ghost var all := Tries(acceptor.ok, inviter.net, key, hello, addresses, trips, false);
    for i := 0 to |invite.addresses|
      invariant all == Tries(acceptor.ok, inviter.net, key, hello, addresses[i..], trips[i..], false)
      invariant acceptor.net == old(acceptor.net) && acceptor.file == old(acceptor.file)
      invariant acceptor.keys == old(acceptor.keys) + {key}
      invariant Located(old(inviter.net), inviter.net)
    {
      assert addresses[i..][1..] == addresses[i + 1..] && trips[i..][1..] == trips[i + 1..];
      if !acceptor.ok(invite.addresses[i]) {
        return Refused;
      }
      if trips[i].Arrives? {
        WelcomeIsWritten(inviter.ok, inviter.net, key, trips[i].on, hello, trips[i].saves, inviter.OnDisk());
        GreetEffect(inviter.ok, inviter.net, key, trips[i].on, hello, trips[i].saves, inviter.OnDisk());
        var answer := inviter.Greet(key, trips[i].on, hello, trips[i].saves);
        if trips[i].replied && answer.Welcomed? {
          reply := Commit(acceptor, alias, invite, key, answer.welcome, saves);
          return;
        }
      }
    }
    return Refused;
  }

  /** At the same addresses, and looked for under the same names. */
  ghost predicate Located(net: Network, net': Network) {
    net'.dns == net.dns && net'.handshakeKeys == net.handshakeKeys
  }

  lemma OnlyMinted(ok: Id -> bool, net: Network, alias: string, invite: Invite, key: Id, hints: seq<string>,
                   store: Store)
    ensures var begin := Command.BeginAccept(alias, invite, key, hints);
      ApplyAll(store, Execute(ok, net, begin, true).writes).file == store.file
  {
    D.MintedFirst(store, key, []);
  }

  /** The accept's entry is in memory, and the reply is the commit's. */
  ghost predicate Committed(ok: Id -> bool, net: Network, alias: string, invite: Invite, key: Id, welcome: Welcome,
                            saves: bool, net': Network, reply: Reply) {
    && welcome.Ok?
    && var commit := Command.CommitAccept(alias, invite, key, welcome.addresses, welcome.dns);
       net' == NextNet(net, commit) && reply == Execute(ok, net, commit, saves).reply
  }

  method Commit(acceptor: D.Daemon, alias: string, invite: Invite, key: Id, welcome: Welcome, saves: bool)
    returns (reply: Reply)
    requires welcome.Ok?
    modifies acceptor
    ensures Committed(acceptor.ok, old(acceptor.net), alias, invite, key, welcome, saves, acceptor.net, reply)
    ensures acceptor.file == if reply.Accepted? then acceptor.net else old(acceptor.file)
    ensures acceptor.keys == old(acceptor.keys) && GainsPeer(old(acceptor.net), acceptor.net)
    ensures IsAccepted(acceptor.net.peers[|old(acceptor.net).peers|], alias, invite, key,
                       welcome.addresses, welcome.dns)
    ensures reply.Accepted? ==>
              reply.alias == alias && PeerByAlias(acceptor.net, alias) == Some(|old(acceptor.net).peers|)
    ensures reply.Accepted? <==> saves && Valid(acceptor.ok, acceptor.net)
  {
    CommitIsWritten(acceptor.ok, acceptor.net, alias, invite, key, welcome, saves, acceptor.OnDisk());
    reply := acceptor.CommitAccept(alias, invite, key, welcome.addresses, welcome.dns, saves);
  }

  lemma CommitIsWritten(ok: Id -> bool, net: Network, alias: string, invite: Invite, key: Id, welcome: Welcome,
                        saves: bool, store: Store)
    requires welcome.Ok?
    ensures var o := Execute(ok, net, Command.CommitAccept(alias, invite, key, welcome.addresses, welcome.dns), saves);
      ApplyAll(store, o.writes).file == if o.reply.Accepted? then o.net else store.file
  {
    var commit := Command.CommitAccept(alias, invite, key, welcome.addresses, welcome.dns);
    var o := Execute(ok, net, commit, saves);
    if o.writes != [] {
      assert o.writes == SaveWrites(o.net, saves);
      assert o.writes[..|o.writes|] == o.writes;
      StoppedSave(store, o.net, saves, |o.writes|);
    }
  }

  /** A welcome is given only once the file says what the memory does. */
  lemma WelcomeIsWritten(ok: Id -> bool, net: Network, caller: Id, on: string, hello: Hello, saves: bool, store: Store)
    ensures var o := Execute(ok, net, Command.Greet(caller, on, hello), saves);
      && (o.reply.Welcomed? ==> o.reply.welcome.Ok? && ApplyAll(store, o.writes).file == o.net)
      && ApplyAll(store, o.writes).keys == store.keys
  {
    var cmd := Command.Greet(caller, on, hello);
    var o := Execute(ok, net, cmd, saves);
    CrashPoints(ok, net, cmd, saves, store, |o.writes|);
    assert o.writes[..|o.writes|] == o.writes;
  }

  /** `greet_parent`: a device taking up an invite stops at the first reply. */
  method GreetParent(parent: D.Daemon, invite: Invite, key: Id, hello: Hello, trips: seq<Trip>)
    returns (welcome: Option<Welcome>)
    requires |trips| == |invite.addresses|
    modifies parent
    ensures var tried := Tries(parent.ok, old(parent.net), key, hello, invite.addresses, trips, true);
      parent.net == tried.net && welcome == tried.welcome
  {
    ghost var addresses := invite.addresses;
    ghost var all := Tries(parent.ok, parent.net, key, hello, addresses, trips, true);
    for i := 0 to |invite.addresses|
      invariant all == Tries(parent.ok, parent.net, key, hello, addresses[i..], trips[i..], true)
    {
      assert addresses[i..][1..] == addresses[i + 1..] && trips[i..][1..] == trips[i + 1..];
      if !parent.ok(invite.addresses[i]) {
        return None;
      }
      if trips[i].Arrives? {
        var answer := parent.Greet(key, trips[i].on, hello, trips[i].saves);
        if trips[i].replied {
          return if answer.Welcomed? then Some(answer.welcome) else None;
        }
      }
    }
    return None;
  }

  /** `ask_peer`: greeting as an established peer and asking where a device is, on one
      connection, until an answer comes back. */
  method AskPeer(peer: D.Daemon, caller: Id, addresses: seq<Id>, trips: seq<Trip>, name: string, asking: Id,
                 scheme: T.Scheme, now: nat) returns (answer: Option<Say>)
    requires |trips| == |addresses| && now + T.LIFETIME_SECS < T.U64_LIMIT
    modifies peer
    ensures var tried := Tries(peer.ok, old(peer.net), caller, PeerHello, addresses, trips, false);
      && peer.net == tried.net && peer.live == old(peer.live) && peer.keys == old(peer.keys)
      && answer == Asked(peer.ok, scheme, peer.Now(), now, tried.welcome, caller, name, asking)
    ensures answer.Some? ==> Vouched(scheme, answer.value, old(peer.Now()), caller, name, asking, now)
  {
    AskedIsVouched(peer.ok, scheme, peer.Now(), caller, addresses, trips, name, asking, now);
    ghost var all := Tries(peer.ok, peer.net, caller, PeerHello, addresses, trips, false);
    for i := 0 to |addresses|
      invariant all == Tries(peer.ok, peer.net, caller, PeerHello, addresses[i..], trips[i..], false)
      invariant peer.live == old(peer.live) && peer.keys == old(peer.keys)
    {
      assert addresses[i..][1..] == addresses[i + 1..] && trips[i..][1..] == trips[i + 1..];
      if !peer.ok(addresses[i]) {
        return None;
      }
      if trips[i].Arrives? {
        WelcomeIsWritten(peer.ok, peer.net, caller, trips[i].on, PeerHello, trips[i].saves, peer.OnDisk());
        var greeting := peer.Greet(caller, trips[i].on, PeerHello, trips[i].saves);
        if trips[i].replied && greeting.Welcomed? {
          var say := peer.Locate(name, asking, Some(greeting.welcome.alias), scheme, now);
          return Some(say);
        }
      }
    }
    return None;
  }

  /** What a peer that has greeted us with `welcome` says to an ask for a device. */
  ghost function Asked(ok: Id -> bool, scheme: T.Scheme, s: State, now: nat, welcome: Option<Welcome>,
                       caller: Id, name: string, asking: Id): Option<Say>
    requires now + T.LIFETIME_SECS < T.U64_LIMIT
  {
    if welcome.None? || welcome.value.No? then None
    else Some(Told(ok, scheme, s, now, PeerAsker(welcome.value.alias), caller, Resolve(name, asking)))
  }

  /** What a peer whose state is `s` may answer one who dials as `caller`: if anything, where the
      device is, and a ticket for `asking` under the alias of the entry that holds `caller`. */
  ghost predicate Vouched(scheme: T.Scheme, say: Say, s: State, caller: Id, name: string, asking: Id, now: nat) {
    say.Denied? ||
    (PeerByKey(s.net, caller).Some? &&
     Points(scheme, say, s, name, asking, Some(s.net.peers[PeerByKey(s.net, caller).value].alias), now))
  }

  lemma KnownOnlyArrives(net: Network, caller: Id, on: string, hello: Hello)
    requires Recognise(net, caller, hello).Known?
    ensures SameButArrivals(net, Greeted(net, caller, on, hello))
  {
  }

  /** One who greets as an established peer is welcomed only as the entry that holds its key, and
      changes nothing but where that peer last arrived. */
  lemma {:induction false} WelcomedAsItsEntry(ok: Id -> bool, net: Network, caller: Id, addresses: seq<Id>,
                                              trips: seq<Trip>)
    requires |trips| == |addresses|
    ensures
      var t := Tries(ok, net, caller, PeerHello, addresses, trips, false);
      && SameButArrivals(net, t.net)
      && (t.welcome.Some? ==>
            && PeerByKey(net, caller).Some?
            && t.welcome.value == WelcomeAs(net, net.peers[PeerByKey(net, caller).value].alias))
    decreases |addresses|
  {
    if PeerByKey(net, caller).None? {
      StrangerIsRefused(ok, net, caller, PeerHello, addresses, trips, false);
    } else if addresses != [] && ok(addresses[0]) {
      if trips[0].Lost? {
        WelcomedAsItsEntry(ok, net, caller, addresses[1..], trips[1..]);
      } else {
        var net' := Greeted(net, caller, trips[0].on, PeerHello);
        KnownTry(ok, net, caller, PeerHello, addresses, trips);
        KnownOnlyArrives(net, caller, trips[0].on, PeerHello);
        StillKnown(net, net', caller, PeerHello);
        SameWelcome(net, net', PeerByKey(net, caller).value);
        WelcomedAsItsEntry(ok, net', caller, addresses[1..], trips[1..]);
      }
    }
  }

  lemma PointsAlike(scheme: T.Scheme, say: Say, s: State, s': State, name: string, caller: Id,
                    alias: Option<string>, now: nat)
    requires SameButArrivals(s.net, s'.net) && s'.live == s.live
    ensures Points(scheme, say, s', name, caller, alias, now) <==> Points(scheme, say, s, name, caller, alias, now)
  {
  }

  /** So a ticket a peer hands out for a device of its own names whoever asks by the alias of the
      entry that holds the key dialled with. */
  lemma AskedIsVouched(ok: Id -> bool, scheme: T.Scheme, s: State, caller: Id, addresses: seq<Id>, trips: seq<Trip>,
                       name: string, asking: Id, now: nat)
    requires |trips| == |addresses| && now + T.LIFETIME_SECS < T.U64_LIMIT
    ensures
      var t := Tries(ok, s.net, caller, PeerHello, addresses, trips, false);
      forall after: State :: after.net == t.net && after.live == s.live ==>
        var answer := Asked(ok, scheme, after, now, t.welcome, caller, name, asking);
        answer.Some? ==> Vouched(scheme, answer.value, s, caller, name, asking, now)
  {
    var t := Tries(ok, s.net, caller, PeerHello, addresses, trips, false);
    WelcomedAsItsEntry(ok, s.net, caller, addresses, trips);
    if t.welcome.Some? {
      var alias := t.welcome.value.alias;
      forall after: State | after.net == t.net && after.live == s.live
        ensures Vouched(scheme, Asked(ok, scheme, after, now, t.welcome, caller, name, asking).value, s,
                        caller, name, asking, now)
      {
        var say := Told(ok, scheme, after, now, PeerAsker(alias), caller, Resolve(name, asking));
        ToldIff(ok, scheme, after, now, PeerAsker(alias), caller, Resolve(name, asking));
        PointsAlike(scheme, say, s, after, name, asking, Some(alias), now);
      }
    }
  }

  /** `answer`: one ask on a greeted connection whose dialling key is `key`. Who is asking
      decides what they may ask for. A device may have us resolve for it at `peer`, the daemon
      found at the addresses of the entry it names; `trips` is what becomes of our dials. */
  method Answer(daemon: D.Daemon, peer: D.Daemon, asker: Asker, key: Id, ask: Ask, trips: seq<Trip>,
                scheme: T.Scheme, now: nat) returns (say: Say)
    requires daemon != peer && daemon.ok == peer.ok && now + T.LIFETIME_SECS < T.U64_LIMIT
    requires Dials(daemon.net, ask, trips)
    modifies peer
    ensures !ask.ResolveFor? ==>
              say == Told(daemon.ok, scheme, daemon.Now(), now, asker, key, ask) && peer.net == old(peer.net)
    ensures ask.ResolveFor? ==>
              && peer.net == NetAfter(daemon.ok, daemon.Now(), old(peer.net), asker, ask, trips)
              && say == ForDevice(daemon.ok, scheme, daemon.Now(), old(peer.net), peer.Now(), now,
                                  asker, key, ask, trips)
    ensures peer.live == old(peer.live) && peer.keys == old(peer.keys)
    ensures
      match ask
      case Resolve(name, caller) =>
        if asker.PeerAsker? && Findable(daemon.ok, daemon.Now(), name, caller)
        then Points(scheme, say, daemon.Now(), name, caller, Some(asker.alias), now) else say.Denied?
      case ResolveLocal(name) =>
        if asker.DeviceAsker? && Findable(daemon.ok, daemon.Now(), name, key)
        then Points(scheme, say, daemon.Now(), name, key, None, now) else say.Denied?
      case ResolveFor(name, alias) =>
        say.Denied? ||
        (asker.DeviceAsker? && PeerByAlias(daemon.net, alias).Some? &&
         Vouched(scheme, say, old(peer.Now()), daemon.net.peers[PeerByAlias(daemon.net, alias).value].mine,
                 name, key, now))
    ensures ask.ResolveFor? && !MayDialFor(daemon.ok, daemon.Now(), asker, ask.alias) ==>
              say.Denied? && peer.net == old(peer.net)
  {
    ToldIff(daemon.ok, scheme, daemon.Now(), now, asker, key, ask);
    if !ask.ResolveFor? {
      say := AnswerLocally(daemon, asker, key, ask, scheme, now);
    } else if asker.DeviceAsker? {
      say := AnswerFor(daemon, peer, asker, key, ask, trips, scheme, now);
    } else {
      say := Denied;
    }
  }

  /** A peer asks for one of our devices, or one of our devices for a sibling. */
  method AnswerLocally(daemon: D.Daemon, asker: Asker, key: Id, ask: Ask, scheme: T.Scheme, now: nat)
    returns (say: Say)
    requires !ask.ResolveFor? && now + T.LIFETIME_SECS < T.U64_LIMIT
    ensures say == Told(daemon.ok, scheme, daemon.Now(), now, asker, key, ask)
  {
    if ask.Resolve? {
      if !asker.PeerAsker? {
        return Denied;
      }
      say := daemon.Locate(ask.name, ask.caller, Some(asker.alias), scheme, now);
    } else {
      if !asker.DeviceAsker? {
        return Denied;
      }
      say := daemon.Locate(ask.name, key, None, scheme, now);
    }
  }

  /** Dials a peer on behalf of one of our devices, as the identity the peer knows us by. */
  method AnswerFor(daemon: D.Daemon, peer: D.Daemon, asker: Asker, key: Id, ask: Ask, trips: seq<Trip>,
                   scheme: T.Scheme, now: nat) returns (say: Say)
    requires daemon != peer && daemon.ok == peer.ok && now + T.LIFETIME_SECS < T.U64_LIMIT
    requires ask.ResolveFor? && asker.DeviceAsker? && Dials(daemon.net, ask, trips)
    modifies peer
    ensures peer.net == NetAfter(daemon.ok, daemon.Now(), old(peer.net), asker, ask, trips)
    ensures say == ForDevice(daemon.ok, scheme, daemon.Now(), old(peer.net), peer.Now(), now, asker, key, ask, trips)
    ensures peer.live == old(peer.live) && peer.keys == old(peer.keys)
    ensures say.Denied? ||
            (PeerByAlias(daemon.net, ask.alias).Some? &&
             Vouched(scheme, say, old(peer.Now()), daemon.net.peers[PeerByAlias(daemon.net, ask.alias).value].mine,
                     ask.name, key, now))
  {
    var i := PeerByAlias(daemon.net, ask.alias);
    if i.None? {
      return Denied;
    }
    var entry := daemon.net.peers[i.value];
    if !daemon.ok(entry.mine) || entry.mine !in daemon.keys {
      return Denied;
    }
    var asked := AskPeer(peer, entry.mine, entry.addresses, trips, ask.name, key, scheme, now);
    return if asked.Some? then asked.value else Denied;
  }

  /** A device may have a peer asked that has an entry of that alias, if we can dial as the identity
      that entry was given. */
  ghost predicate MayDialFor(ok: Id -> bool, s: State, asker: Asker, alias: string) {
    && asker.DeviceAsker? && PeerByAlias(s.net, alias).Some?
    && ok(s.net.peers[PeerByAlias(s.net, alias).value].mine)
    && s.net.peers[PeerByAlias(s.net, alias).value].mine in s.store.keys
  }

  /** The entry a device's ask is taken to: the one of that alias, if its identity's secret is
      there to dial with. */
  ghost function EntryToAsk(ok: Id -> bool, s: State, asker: Asker, alias: string): Option<Peer> {
    match PeerByAlias(s.net, alias)
    case None => None
    case Some(i) =>
      var entry := s.net.peers[i];
      if asker.DeviceAsker? && ok(entry.mine) && entry.mine in s.store.keys then Some(entry) else None
  }

  /** The peer's net once it has been asked for a device. */
  ghost function NetAfter(ok: Id -> bool, s: State, net: Network, asker: Asker, ask: Ask, trips: seq<Trip>): Network
    requires ask.ResolveFor? && Dials(s.net, ask, trips)
  {
    match EntryToAsk(ok, s, asker, ask.alias)
    case None => net
    case Some(entry) => Tries(ok, net, entry.mine, PeerHello, entry.addresses, trips, false).net
  }

  /** What a device whose key is `key` is told about a device of a peer. The peer's net was
      `net` and its state, when it answers, is `after`. */
  ghost function ForDevice(ok: Id -> bool, scheme: T.Scheme, s: State, net: Network, after: State, now: nat,
                           asker: Asker, key: Id, ask: Ask, trips: seq<Trip>): Say
    requires ask.ResolveFor? && Dials(s.net, ask, trips) && now + T.LIFETIME_SECS < T.U64_LIMIT
  {
    match EntryToAsk(ok, s, asker, ask.alias)
    case None => Denied
    case Some(entry) =>
      var tried := Tries(ok, net, entry.mine, PeerHello, entry.addresses, trips, false);
      var asked := Asked(ok, scheme, after, now, tried.welcome, entry.mine, ask.name, key);
      if asked.Some? then asked.value else Denied
  }

  /** There is a trip for every address an ask makes us dial. */
  predicate Dials(net: Network, ask: Ask, trips: seq<Trip>) {
    ask.ResolveFor? ==>
      match PeerByAlias(net, ask.alias)
      case None => true
      case Some(i) => |trips| == |net.peers[i].addresses|
  }

  // -- when they succeed ------------------------------------------------------------------------

  predicate RoundTrip(trip: Trip) {
    trip.Arrives? && trip.saves && trip.replied
  }

  /** Some attempt gets through and back. */
  ghost predicate GetsThrough(trips: seq<Trip>) {
    exists j :: 0 <= j < |trips| && RoundTrip(trips[j])
  }

  /** Addresses that decode, and hellos that arrive on addresses of theirs. */
  ghost predicate Dialable(ok: Id -> bool, net: Network, addresses: seq<Id>, trips: seq<Trip>) {
    && |trips| == |addresses| && AllDecode(ok, addresses)
    && forall j :: 0 <= j < |trips| && trips[j].Arrives? ==> NamesHandshakeKey(net.handshakeKeys, trips[j].on)
  }

  /** Equal but for where peers last arrived. */
  ghost predicate SameButArrivals(a: Network, b: Network) {
    && a.dns == b.dns && a.handshakeKeys == b.handshakeKeys && a.devices == b.devices && |a.peers| == |b.peers|
    && forall j :: 0 <= j < |a.peers| ==> b.peers[j] == a.peers[j].(reachedOn := b.peers[j].reachedOn)
  }

  lemma StillKnown(net: Network, net': Network, caller: Id, hello: Hello)
    requires SameButArrivals(net, net') && Recognise(net, caller, hello).Known?
    ensures Recognise(net', caller, hello) == Recognise(net, caller, hello)
  {
    var i := Recognise(net, caller, hello).index;
    assert net'.peers[i].peer == Some(caller);
    assert forall j :: 0 <= j < |net.peers| ==> net'.peers[j].peer == net.peers[j].peer;
  }

  function WelcomeAs(net: Network, alias: string): Welcome {
    Ok(alias, CurrentAddresses(net), net.dns)
  }

  lemma KnownReply(ok: Id -> bool, net: Network, caller: Id, on: string, hello: Hello, saves: bool)
    requires Recognise(net, caller, hello).Known?
    ensures
      var o := Execute(ok, net, Command.Greet(caller, on, hello), saves);
      && o.net == Greeted(net, caller, on, hello)
      && var alias := net.peers[Recognise(net, caller, hello).index].alias;
         o.reply == if saves then Welcomed(WelcomeAs(net, alias)) else Refused
  {
  }

  lemma KnownArrival(net: Network, caller: Id, on: string, hello: Hello)
    requires Sound(net) && Recognise(net, caller, hello).Known?
    ensures
      var net' := Greeted(net, caller, on, hello);
      SameButArrivals(net, net') && Sound(net')
  {
    GreetingTouchesOneEntry(net, caller, on, hello);
    GreetingGrows(net, caller, on, hello);
  }

  lemma KnownTry(ok: Id -> bool, net: Network, caller: Id, hello: Hello, addresses: seq<Id>, trips: seq<Trip>)
    requires Recognise(net, caller, hello).Known? && |trips| == |addresses| && addresses != [] && ok(addresses[0])
    requires trips[0].Arrives?
    ensures
      var net' := Greeted(net, caller, trips[0].on, hello);
      Tries(ok, net, caller, hello, addresses, trips, false)
        == if RoundTrip(trips[0])
           then Tried(net', Some(WelcomeAs(net, net.peers[Recognise(net, caller, hello).index].alias)))
           else Tries(ok, net', caller, hello, addresses[1..], trips[1..], false)
  {
    KnownReply(ok, net, caller, trips[0].on, hello, trips[0].saves);
  }

  lemma SameWelcome(net: Network, net': Network, i: nat)
    requires SameButArrivals(net, net') && i < |net.peers|
    ensures WelcomeAs(net', net'.peers[i].alias) == WelcomeAs(net, net.peers[i].alias)
  {
  }

  /** Once known, every attempt that gets through and back is welcomed. */
  lemma {:induction false} KnownIsWelcomedOnRoundTrip(ok: Id -> bool, net: Network, caller: Id, hello: Hello,
                                                      addresses: seq<Id>, trips: seq<Trip>)
    requires Sound(net) && Recognise(net, caller, hello).Known? && Dialable(ok, net, addresses, trips)
    ensures
      var t := Tries(ok, net, caller, hello, addresses, trips, false);
      && (t.welcome.Some? <==> GetsThrough(trips))
      && (t.welcome.Some? ==> t.welcome.value == WelcomeAs(net, net.peers[Recognise(net, caller, hello).index].alias))
      && SameButArrivals(net, t.net)
    decreases |addresses|, 1
  {
    if addresses != [] {
      if trips[0].Lost? {
        KnownIsWelcomedOnRoundTrip(ok, net, caller, hello, addresses[1..], trips[1..]);
        NotTheFirst(trips);
      } else {
        KnownIsWelcomedFrom(ok, net, caller, hello, addresses, trips);
      }
    }
  }

  lemma {:induction false} KnownIsWelcomedFrom(ok: Id -> bool, net: Network, caller: Id, hello: Hello,
                                               addresses: seq<Id>, trips: seq<Trip>)
    requires Sound(net) && Recognise(net, caller, hello).Known? && Dialable(ok, net, addresses, trips)
    requires trips != [] && trips[0].Arrives?
    ensures
      var t := Tries(ok, net, caller, hello, addresses, trips, false);
      && (t.welcome.Some? <==> GetsThrough(trips))
      && (t.welcome.Some? ==> t.welcome.value == WelcomeAs(net, net.peers[Recognise(net, caller, hello).index].alias))
      && SameButArrivals(net, t.net)
    decreases |addresses|, 0
  {
    var net' := Greeted(net, caller, trips[0].on, hello);
    KnownTry(ok, net, caller, hello, addresses, trips);
    KnownArrival(net, caller, trips[0].on, hello);
    if RoundTrip(trips[0]) {
      assert GetsThrough(trips);
    } else {
      StillKnown(net, net', caller, hello);
      SameWelcome(net, net', Recognise(net, caller, hello).index);
      KnownIsWelcomedOnRoundTrip(ok, net', caller, hello, addresses[1..], trips[1..]);
      NotTheFirst(trips);
    }
  }

  lemma NotTheFirst(trips: seq<Trip>)
    requires trips != [] && !RoundTrip(trips[0])
    ensures GetsThrough(trips) <==> GetsThrough(trips[1..])
  {
    if j :| 0 <= j < |trips| && RoundTrip(trips[j]) {
      assert RoundTrip(trips[1..][j - 1]);
    }
    if j :| 0 <= j < |trips[1..]| && RoundTrip(trips[1..][j]) {
      assert RoundTrip(trips[j + 1]);
    }
  }

  /** The entry for the taken-up invite, arrival aside. */
  function TakenUpBy(net: Network, i: nat, caller: Id, hello: Hello): Network
    requires i < |net.peers| && hello.Invited?
  {
    net.(peers := net.peers[i := net.peers[i].(
      peer := Some(caller), addresses := hello.addresses, dns := hello.dns, hints := hello.hints)])
  }

  lemma PairedNet(net: Network, caller: Id, on: string, hello: Hello, i: nat)
    requires Sound(net) && Recognise(net, caller, hello) == Pairs(i)
    ensures
      var net' := Greeted(net, caller, on, hello);
      && SameButArrivals(TakenUpBy(net, i, caller, hello), net') && Sound(net')
      && Recognise(net', caller, hello) == Known(i)
  {
    GreetingTouchesOneEntry(net, caller, on, hello);
    GreetingGrows(net, caller, on, hello);
    var net' := Greeted(net, caller, on, hello);
    assert net'.peers[i].peer == Some(caller);
    assert PeerByKey(net', caller) == Some(i);
  }

  lemma PairingArrival(ok: Id -> bool, net: Network, caller: Id, on: string, hello: Hello, saves: bool, i: nat)
    requires Valid(ok, net) && Sound(net) && Recognise(net, caller, hello) == Pairs(i)
    requires ok(caller) && AllDecode(ok, hello.addresses) && NamesHandshakeKey(net.handshakeKeys, on)
    ensures
      var o := Execute(ok, net, Command.Greet(caller, on, hello), saves);
      && o.net == Greeted(net, caller, on, hello)
      && o.reply == if saves then Welcomed(WelcomeAs(net, net.peers[i].alias)) else Refused
  {
    Restart.PairingValidIff(ok, net, caller, on, hello);
  }

  lemma SameButArrivalsTransitive(a: Network, b: Network, c: Network)
    requires SameButArrivals(a, b) && SameButArrivals(b, c)
    ensures SameButArrivals(a, c)
  {
  }

  /** Retrying a pairing is idempotent and loses nothing. Whatever pattern of lost dials,
      hellos, replies and failed writes, taking up an outstanding invite succeeds exactly if
      some attempt gets through and back, even when the reply to the attempt that did the
      pairing was lost: by then the dialling key is known. The inviter's net changes once,
      on the first hello to arrive, and then only in where the caller last arrived. */
  lemma {:induction false} PairingSucceedsIff(ok: Id -> bool, net: Network, caller: Id, hello: Hello,
                                              addresses: seq<Id>, trips: seq<Trip>, i: nat)
    requires Valid(ok, net) && Sound(net) && Recognise(net, caller, hello) == Pairs(i)
    requires ok(caller) && AllDecode(ok, hello.addresses) && Dialable(ok, net, addresses, trips)
    ensures
      var t := Tries(ok, net, caller, hello, addresses, trips, false);
      && (t.welcome.Some? <==> GetsThrough(trips))
      && (t.welcome.Some? ==> t.welcome.value == WelcomeAs(net, net.peers[i].alias))
      && (if exists j :: 0 <= j < |trips| && trips[j].Arrives?
          then SameButArrivals(TakenUpBy(net, i, caller, hello), t.net) else t.net == net)
    decreases |addresses|
  {
    if addresses != [] {
      if trips[0].Lost? {
        PairingSucceedsIff(ok, net, caller, hello, addresses[1..], trips[1..], i);
        NotTheFirst(trips);
        ArrivesLater(trips);
      } else {
        FirstArrivalPairs(ok, net, caller, hello, addresses, trips, i);
      }
    }
  }

  lemma FirstArrivalPairs(ok: Id -> bool, net: Network, caller: Id, hello: Hello, addresses: seq<Id>,
                          trips: seq<Trip>, i: nat)
    requires Valid(ok, net) && Sound(net) && Recognise(net, caller, hello) == Pairs(i)
    requires ok(caller) && AllDecode(ok, hello.addresses) && Dialable(ok, net, addresses, trips)
    requires trips != [] && trips[0].Arrives?
    ensures
      var t := Tries(ok, net, caller, hello, addresses, trips, false);
      && (t.welcome.Some? <==> GetsThrough(trips))
      && (t.welcome.Some? ==> t.welcome.value == WelcomeAs(net, net.peers[i].alias))
      && SameButArrivals(TakenUpBy(net, i, caller, hello), t.net)
  {
    PairingArrival(ok, net, caller, trips[0].on, hello, trips[0].saves, i);
    PairedNet(net, caller, trips[0].on, hello, i);
    var net' := Greeted(net, caller, trips[0].on, hello);
    if RoundTrip(trips[0]) {
      assert GetsThrough(trips);
    } else {
      KnownIsWelcomedOnRoundTrip(ok, net', caller, hello, addresses[1..], trips[1..]);
      NotTheFirst(trips);
      SameButArrivalsTransitive(TakenUpBy(net, i, caller, hello), net',
                                Tries(ok, net', caller, hello, addresses[1..], trips[1..], false).net);
    }
  }

  lemma ArrivesLater(trips: seq<Trip>)
    requires trips != [] && trips[0].Lost?
    ensures (exists j :: 0 <= j < |trips| && trips[j].Arrives?) <==>
            (exists j :: 0 <= j < |trips[1..]| && trips[1..][j].Arrives?)
  {
    if j :| 0 <= j < |trips| && trips[j].Arrives? {
      assert trips[1..][j - 1].Arrives?;
    }
  }

  /** An address that does not decode ends it: what comes after is never tried. */
  lemma {:induction false} UndecodableEnds(ok: Id -> bool, net: Network, caller: Id, hello: Hello,
                                           addresses: seq<Id>, trips: seq<Trip>, stopsAtNo: bool, k: nat)
    requires |trips| == |addresses| && k < |addresses| && !ok(addresses[k])
    ensures Tries(ok, net, caller, hello, addresses, trips, stopsAtNo)
            == Tries(ok, net, caller, hello, addresses[..k], trips[..k], stopsAtNo)
    decreases k
  {
    if k > 0 && ok(addresses[0]) {
      var net' := if trips[0].Lost? then net
                  else Execute(ok, net, Command.Greet(caller, trips[0].on, hello), trips[0].saves).net;
      UndecodableEnds(ok, net', caller, hello, addresses[1..], trips[1..], stopsAtNo, k - 1);
      assert addresses[..k][1..] == addresses[1..][..k - 1] && trips[..k][1..] == trips[1..][..k - 1];
    }
  }

  /** A device enrolling goes no further than the first reply, whatever it says. */
  lemma {:induction false} FirstReplyEnds(ok: Id -> bool, net: Network, caller: Id, hello: Hello,
                                          addresses: seq<Id>, trips: seq<Trip>, k: nat)
    requires |trips| == |addresses| && k < |trips| && trips[k].Arrives? && trips[k].replied
    ensures Tries(ok, net, caller, hello, addresses, trips, true)
            == Tries(ok, net, caller, hello, addresses[..k + 1], trips[..k + 1], true)
    decreases k
  {
    var a, t := addresses[..k + 1], trips[..k + 1];
    if k > 0 && ok(addresses[0]) {
      var net' := if trips[0].Lost? then net
                  else Execute(ok, net, Command.Greet(caller, trips[0].on, hello), trips[0].saves).net;
      FirstReplyEnds(ok, net', caller, hello, addresses[1..], trips[1..], k - 1);
      assert a[1..] == addresses[1..][..k] && t[1..] == trips[1..][..k];
    }
  }

  /** Nobody to this caller: neither known nor invited by that identity. */
  lemma {:induction false} StrangerIsRefused(ok: Id -> bool, net: Network, caller: Id, hello: Hello,
                                             addresses: seq<Id>, trips: seq<Trip>, stopsAtNo: bool)
    requires Recognise(net, caller, hello).Stranger? && |trips| == |addresses|
    ensures Tries(ok, net, caller, hello, addresses, trips, stopsAtNo) == Tried(net, None)
    decreases |addresses|
  {
    if addresses != [] && ok(addresses[0]) {
      StrangerIsRefused(ok, net, caller, hello, addresses[1..], trips[1..], stopsAtNo);
    }
  }

  /** The first attempt to get through also gets back. */
  ghost predicate FirstThroughIsBack(trips: seq<Trip>) {
    exists j :: 0 <= j < |trips| && RoundTrip(trips[j]) && forall k :: 0 <= k < j ==> trips[k].Lost?
  }

  /** Once enrolled, the device's key is a stranger's: it is no peer, and its invite is gone. */
  lemma EnrolledIsAStranger(net: Network, caller: Id, on: string, hello: Hello, i: nat)
    requires Sound(net) && Recognise(net, caller, hello) == Enrols(i) && PendingByMine(net, hello.invitedTo).None?
    requires forall j :: 0 <= j < |net.devices| && j != i ==> net.devices[j].invite != Some(hello.invitedTo)
    ensures Recognise(Greeted(net, caller, on, hello), caller, hello).Stranger?
  {
    GreetingTouchesOneEntry(net, caller, on, hello);
    var net' := Greeted(net, caller, on, hello);
    assert PeerByKey(net', caller) == PeerByKey(net, caller);
    assert PendingByMine(net', hello.invitedTo) == PendingByMine(net, hello.invitedTo);
    forall j | 0 <= j < |net'.devices|
      ensures !(net'.devices[j].keys == [] && net'.devices[j].invite == Some(hello.invitedTo))
    {
      assert j != i ==> net'.devices[j] == net.devices[j];
    }
  }

  /** The invite is that of entry `i`, a device still to enrol, and of nothing else; the key is no
      one's. */
  ghost predicate AwaitsDevice(net: Network, key: Id, invite: Id, i: nat) {
    && Sound(net) && PeerByKey(net, key).None? && DeviceByKey(net, key).None?
    && PendingDeviceByInvite(net, invite) == Some(i) && PendingByMine(net, invite).None?
    && forall j :: 0 <= j < |net.devices| && j != i ==> net.devices[j].invite != Some(invite)
  }

  /** A device that hears it is welcome has been enrolled: the entry waiting for it has its key, and
      finding that key finds that entry, whose name it was told. */
  lemma {:induction false} EnrolledByTries(ok: Id -> bool, net: Network, key: Id, hello: Hello,
                                           addresses: seq<Id>, trips: seq<Trip>, stopsAtNo: bool, i: nat)
    requires hello.Invited? && AwaitsDevice(net, key, hello.invitedTo, i) && |trips| == |addresses|
    ensures
      var t := Tries(ok, net, key, hello, addresses, trips, stopsAtNo);
      t.welcome.Some? ==>
        && t.welcome.value.Ok? && t.welcome.value.alias == net.devices[i].name
        && t.net.devices == net.devices[i := Device(net.devices[i].name, [key], None)]
        && DeviceByKey(t.net, key) == Some(i)
    decreases |addresses|
  {
    if addresses != [] && ok(addresses[0]) {
      if trips[0].Lost? {
        EnrolledByTries(ok, net, key, hello, addresses[1..], trips[1..], stopsAtNo, i);
      } else {
        assert Recognise(net, key, hello) == Enrols(i);
        GreetingTouchesOneEntry(net, key, trips[0].on, hello);
        EnrolledIsAStranger(net, key, trips[0].on, hello, i);
        var net' := Greeted(net, key, trips[0].on, hello);
        StrangerIsRefused(ok, net', key, hello, addresses[1..], trips[1..], stopsAtNo);
        assert DeviceByKey(net', key) == Some(i) by {
          assert net'.devices[i].keys == [key];
          assert forall j :: 0 <= j < i ==> net'.devices[j] == net.devices[j];
        }
      }
    }
  }

  lemma EnrolmentArrival(ok: Id -> bool, net: Network, caller: Id, on: string, hello: Hello, saves: bool, i: nat)
    requires Valid(ok, net) && Sound(net) && Recognise(net, caller, hello) == Enrols(i) && ok(caller)
    ensures
      var o := Execute(ok, net, Command.Greet(caller, on, hello), saves);
      && o.net == Greeted(net, caller, on, hello)
      && o.reply == if saves then Welcomed(WelcomeAs(net, net.devices[i].name)) else Refused
  {
    Restart.EnrolmentValidIff(ok, net, caller, on, hello);
  }

  /** Retrying an enrolment is not: a device is no peer, so once its hello has arrived its
      dialling key is refused. Enrolling succeeds exactly if the first attempt to get through
      also gets back, whether or not the device goes on after a refusal. */
  lemma {:induction false} EnrolmentSucceedsIff(ok: Id -> bool, net: Network, caller: Id, hello: Hello,
                                                addresses: seq<Id>, trips: seq<Trip>, i: nat, stopsAtNo: bool)
    requires Valid(ok, net) && Sound(net) && Recognise(net, caller, hello) == Enrols(i) && ok(caller)
    requires Dialable(ok, net, addresses, trips) && PendingByMine(net, hello.invitedTo).None?
    requires forall j :: 0 <= j < |net.devices| && j != i ==> net.devices[j].invite != Some(hello.invitedTo)
    ensures
      var t := Tries(ok, net, caller, hello, addresses, trips, stopsAtNo);
      && (t.welcome.Some? <==> FirstThroughIsBack(trips))
      && (t.welcome.Some? ==> t.welcome.value == WelcomeAs(net, net.devices[i].name))
    decreases |addresses|
  {
    if addresses != [] {
      if trips[0].Lost? {
        EnrolmentSucceedsIff(ok, net, caller, hello, addresses[1..], trips[1..], i, stopsAtNo);
        FirstAfterLoss(trips);
      } else {
        EnrolmentArrival(ok, net, caller, trips[0].on, hello, trips[0].saves, i);
        EnrolledIsAStranger(net, caller, trips[0].on, hello, i);
        var net' := Execute(ok, net, Command.Greet(caller, trips[0].on, hello), trips[0].saves).net;
        StrangerIsRefused(ok, net', caller, hello, addresses[1..], trips[1..], stopsAtNo);
        FirstDecides(trips);
      }
    }
  }

  lemma FirstDecides(trips: seq<Trip>)
    requires trips != [] && trips[0].Arrives?
    ensures FirstThroughIsBack(trips) <==> RoundTrip(trips[0])
  {
  }

  lemma FirstAfterLoss(trips: seq<Trip>)
    requires trips != [] && trips[0].Lost?
    ensures FirstThroughIsBack(trips) <==> FirstThroughIsBack(trips[1..])
  {
    if j :| 0 <= j < |trips| && RoundTrip(trips[j]) && forall k :: 0 <= k < j ==> trips[k].Lost? {
      assert RoundTrip(trips[1..][j - 1]) && forall k :: 0 <= k < j - 1 ==> trips[1..][k].Lost?;
    }
    if j :| 0 <= j < |trips[1..]| && RoundTrip(trips[1..][j]) && forall k :: 0 <= k < j ==> trips[1..][k].Lost? {
      forall k | 0 <= k < j + 1 ensures trips[k].Lost? {
        if k > 0 {
          assert trips[1..][k - 1].Lost?;
        }
      }
      assert RoundTrip(trips[j + 1]);
    }
  }
}
