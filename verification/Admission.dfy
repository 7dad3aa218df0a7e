/** A device admitting a caller by ticket, and what that says about the daemon that is its
    parent: nobody gets in that was not granted it, and whoever is granted it gets in. */
module Admission {
  import opened Wrappers
  import opened Proto
  import opened Network
  import opened Commands
  import opened World
  import opened Invariant
  import opened Preservation
  import opened Edges
  import opened Connections
  import T = Ticket
  import D = Daemon
  import Progress
  import Retry

  /** What a device keeps of its parent: the name it was enrolled under, and the addresses in
      the invite it enrolled with. */
  datatype DeviceConfig = DeviceConfig(name: string, key: Id, parent: seq<Id>)

  /** What a device makes of the welcome it enrolled with. */
  function Configured(welcome: Welcome, key: Id, invite: Invite): DeviceConfig
    requires welcome.Ok?
  {
    DeviceConfig(welcome.alias, key, invite.addresses)
  }

  /** Taking up a device invite at the parent: the name is the parent's to say, and the
      addresses it will be trusted by are the invite's. */
  method Enrol(parent: D.Daemon, invite: Invite, key: Id, trips: seq<Retry.Trip>) returns (config: Option<DeviceConfig>)
    requires |trips| == |invite.addresses|
    modifies parent
    ensures
      var hello := Invited(invite.identity, [key], [], []);
      var tried := Retry.Tries(parent.ok, old(parent.net), key, hello, invite.addresses, trips, true);
      && parent.net == tried.net
      && (config.Some? <==> tried.welcome.Some? && tried.welcome.value.Ok?)
      && (config.Some? ==> config.value == Configured(tried.welcome.value, key, invite))
    ensures config.Some? ==> config.value.key == key && config.value.parent == invite.addresses
    ensures config.Some? ==>
              forall i: nat :: Retry.AwaitsDevice(old(parent.net), key, invite.identity, i) ==>
                && DeviceByKey(parent.net, key) == Some(i) && i < |parent.net.devices|
                && parent.net.devices[i].keys == [key] && parent.net.devices[i].name == config.value.name
  {
    forall i: nat | Retry.AwaitsDevice(parent.net, key, invite.identity, i) {
      Retry.EnrolledByTries(parent.ok, parent.net, key, Invited(invite.identity, [key], [], []), invite.addresses,
                            trips, true, i);
    }
    var welcome := Retry.GreetParent(parent, invite, key, Invited(invite.identity, [key], [], []), trips);
    if welcome.None? || welcome.value.No? {
      return None;
    }
    return Some(Configured(welcome.value, key, invite));
  }

  /** In every reachable world a device invite that is outstanding waits for one device only. */
  lemma OutstandingAwaits(ok: Id -> bool, w: World, b: nat, invite: Id, key: Id)
    requires Inv(ok, w) && b < |w.nodes| && PendingDeviceByInvite(w.nodes[b].s.net, invite).Some?
    requires Progress.NewKey(ok, w, b, key)
    ensures Retry.AwaitsDevice(w.nodes[b].s.net, key, invite, PendingDeviceByInvite(w.nodes[b].s.net, invite).value)
  {
    var net := w.nodes[b].s.net;
    assert StateOk(w.roles, w.answered, b, w.nodes[b].s);
    Progress.UnseenIsUnknown(ok, w, b, key);
    forall i | 0 <= i < |net.peers| ensures !(net.peers[i].peer.None? && net.peers[i].mine == invite) {
      assert EntryOk(w.roles, w.answered, b, net.peers[i]);
    }
  }

  datatype Verdict =
    | Admitted
    | NoTicket
    | TicketRefused(why: T.Refusal)
    | OtherDevice

  /** What a device says to a knock. */
  method Handle(ok: Id -> bool, scheme: T.Scheme, config: DeviceConfig, caller: Id,
                knock: Option<T.Ticket>, now: nat) returns (verdict: Verdict)
    ensures verdict == Judged(ok, scheme, config, caller, knock, now)
    ensures verdict.Admitted? <==>
              knock.Some? && knock.value.claims.name == config.name
              && T.Verify(ok, scheme, knock.value, caller, config.parent, now).None?
    ensures verdict.NoTicket? <==> knock.None?
    ensures verdict.TicketRefused? ==>
              knock.Some? && T.Verify(ok, scheme, knock.value, caller, config.parent, now) == Some(verdict.why)
    ensures verdict.OtherDevice? ==> knock.Some? && knock.value.claims.name != config.name
  {
    if knock.None? {
      return NoTicket;
    }
    var refusal := T.Verify(ok, scheme, knock.value, caller, config.parent, now);
    if refusal.Some? {
      return TicketRefused(refusal.value);
    }
    if knock.value.claims.name != config.name {
      return OtherDevice;
    }
    return Admitted;
  }

  function Judged(ok: Id -> bool, scheme: T.Scheme, config: DeviceConfig, caller: Id,
                  knock: Option<T.Ticket>, now: nat): (verdict: Verdict)
    ensures verdict.Admitted? <==>
              knock.Some? && knock.value.claims.name == config.name
              && T.Verify(ok, scheme, knock.value, caller, config.parent, now).None?
  {
    match knock
    case None => NoTicket
    case Some(ticket) =>
      var refusal := T.Verify(ok, scheme, ticket, caller, config.parent, now);
      if refusal.Some? then TicketRefused(refusal.value)
      else if ticket.claims.name != config.name then OtherDevice
      else Admitted
  }

  // -- nobody gets in that was not granted it --------------------------------------------------------

  /** Step `j` answered an ask with a ticket saying `claims`. */
  ghost predicate Grants(ok: Id -> bool, ws: seq<World>, steps: seq<Step>, j: nat, claims: T.Claims)
    requires IsRun(ok, ws, steps)
  {
    && j < |steps| && steps[j].Asks? && steps[j].conn in ws[j].conns
    && ws[j].conns[steps[j].conn].node < |ws[j].nodes|
    && ws[j].now + T.LIFETIME_SECS < T.U64_LIMIT
    && TicketFor(ok, ws[j], steps[j].conn, steps[j].ask) == Some(claims)
  }

  lemma ResultSignsNothing(w: World, n: nat, cmd: Command, o: Outcome, store: Store)
    requires n < |w.nodes| && ReplyFits(w.nodes[n].s.net, cmd, o)
    ensures Resulting(w, n, cmd, o, store).tickets == w.tickets
  {
  }

  lemma StepsSignOnlyAsked(ok: Id -> bool, w: World, w': World, step: Step)
    requires NextBy(ok, w, w', step) && !step.Asks?
    ensures w'.tickets == w.tickets
  {
    if step.Run? {
      var s := w.nodes[step.n].s;
      var o := Execute(ok, s.net, step.cmd, step.saves);
      RepliesFit(ok, s.net, step.cmd, step.saves);
      ResultSignsNothing(w, step.n, step.cmd, o, ApplyAll(s.store, o.writes));
    }
  }

  lemma {:induction false} TicketsWereGranted(ok: Id -> bool, ws: seq<World>, steps: seq<Step>, i: nat,
                                              claims: T.Claims)
    requires IsRun(ok, ws, steps) && i < |ws| && claims in ws[i].tickets
    ensures exists j :: 0 <= j < i && Grants(ok, ws, steps, j, claims)
  {
    if i > 0 {
      StepOf(ok, ws, steps, i - 1);
      if claims in ws[i - 1].tickets {
        TicketsWereGranted(ok, ws, steps, i - 1, claims);
      } else if steps[i - 1].Asks? {
        assert Grants(ok, ws, steps, i - 1, claims);
      } else {
        StepsSignOnlyAsked(ok, ws[i - 1], ws[i], steps[i - 1]);
      }
    }
  }

  /** Daemon `b` granted `caller` a ticket to `name` at step `j`, signed with `issuer`, one of
      its addresses, while `name` was in its roster. */
  ghost predicate GrantedBy(ok: Id -> bool, ws: seq<World>, steps: seq<Step>, j: nat, b: nat,
                            name: string, caller: Id, issuer: Id)
    requires IsRun(ok, ws, steps)
  {
    && j < |steps| && steps[j].Asks? && steps[j].conn in ws[j].conns
    && ws[j].conns[steps[j].conn].node == b < |ws[j].nodes|
    && name in ws[j].nodes[b].s.live
    && issuer in CurrentAddresses(ws[j].nodes[b].s.net) && issuer in ws[j].nodes[b].s.store.keys
    && var conn := ws[j].conns[steps[j].conn];
       exists alias :: Wanted(conn.asker, conn.key, steps[j].ask) == Some((name, caller, alias))
  }

  lemma GrantShows(ok: Id -> bool, ws: seq<World>, steps: seq<Step>, j: nat, claims: T.Claims)
    requires IsRun(ok, ws, steps) && Grants(ok, ws, steps, j, claims)
    ensures GrantedBy(ok, ws, steps, j, ws[j].conns[steps[j].conn].node, claims.name, claims.caller, claims.issuer)
    ensures claims.validUntil == ws[j].now + T.LIFETIME_SECS
  {
    var conn := ws[j].conns[steps[j].conn];
    assert Wanted(conn.asker, conn.key, steps[j].ask) == Some((claims.name, claims.caller, claims.alias));
  }

  /** Daemon `b`'s grant is five minutes old at most in world `i`. */
  ghost predicate Timely(ws: seq<World>, j: nat, i: nat, validUntil: nat)
    requires j < |ws| && i < |ws|
  {
    ws[j].now <= ws[i].now && validUntil == ws[j].now + T.LIFETIME_SECS
  }

  lemma SignedWasGranted(ok: Id -> bool, ws: seq<World>, steps: seq<Step>, i: nat, c: T.Claims) returns (j: nat, b: nat)
    requires IsRun(ok, ws, steps) && i < |ws| && c in ws[i].tickets
    ensures j < i && GrantedBy(ok, ws, steps, j, b, c.name, c.caller, c.issuer) && Timely(ws, j, i, c.validUntil)
  {
    TicketsWereGranted(ok, ws, steps, i, c);
    j :| 0 <= j < i && Grants(ok, ws, steps, j, c);
    GrantShows(ok, ws, steps, j, c);
    RunsGoOn(ok, ws, steps, j, i);
    b := ws[j].conns[steps[j].conn].node;
  }

  /** Whom a device admits holds a ticket that a parent of its signed for them. */
  lemma AdmittedWasSigned(ok: Id -> bool, scheme: T.Scheme, config: DeviceConfig, caller: Id,
                          knock: Option<T.Ticket>, now: nat, signed: set<T.Claims>) returns (c: T.Claims)
    requires Judged(ok, scheme, config, caller, knock, now).Admitted?
    requires T.Unforged(scheme, config.parent, knock.value, signed)
    requires T.Fits(knock.value.claims) && forall c :: c in signed ==> T.Fits(c)
    ensures c in signed && c.name == config.name && c.caller == caller
    ensures c.issuer in config.parent && now <= c.validUntil
  {
    T.VerifiedTicketWasMinted(ok, scheme, knock.value, caller, config.parent, now, signed);
    c :| c in signed && T.SameClaims(c, knock.value.claims) && c.issuer in config.parent
      && c.caller == caller && now <= c.validUntil;
  }

  /** End-to-end admission. Whenever a device admits a caller, a daemon holding one of the
      addresses the device knows its parent by had earlier granted exactly that caller a
      ticket to exactly that device's name, at most five minutes before, while the name was
      in its roster. All that is asked of signatures is that this knock carries no forgery: if
      it verifies under a parent address, that address has signed those bytes in the run. */
  lemma AdmittedWasGranted(ok: Id -> bool, scheme: T.Scheme, ws: seq<World>, steps: seq<Step>, i: nat,
                           config: DeviceConfig, caller: Id, knock: Option<T.Ticket>)
    requires IsRun(ok, ws, steps) && i < |ws|
    requires Judged(ok, scheme, config, caller, knock, ws[i].now).Admitted?
    requires T.Unforged(scheme, config.parent, knock.value, ws[i].tickets)
    requires T.Fits(knock.value.claims) && forall c :: c in ws[i].tickets ==> T.Fits(c)
    ensures exists j, b, issuer :: 0 <= j < i && issuer in config.parent
              && GrantedBy(ok, ws, steps, j, b, config.name, caller, issuer)
              && ws[j].now <= ws[i].now <= ws[j].now + T.LIFETIME_SECS
  {
    var c := AdmittedWasSigned(ok, scheme, config, caller, knock, ws[i].now, ws[i].tickets);
    var j, b := SignedWasGranted(ok, ws, steps, i, c);
    assert GrantedBy(ok, ws, steps, j, b, config.name, caller, c.issuer);
  }

  // -- whoever is granted it gets in -------------------------------------------------------------------

  lemma FirstAddress(keys: seq<HandshakeKey>)
    requires keys != [] && !keys[0].retired
    ensures Advertised(keys) != [] && Advertised(keys)[0] == keys[0].key
  {
  }

  /** The address a daemon signs with never changes, so it is in every invite it ever made
      and in what every device of its keeps of its parent. */
  lemma SignsWithAnInvitedAddress(ok: Id -> bool, ws: seq<World>, steps: seq<Step>,
                                  i: nat, b: nat, make: Command, invite: Invite, k: nat)
    requires IsRun(ok, ws, steps) && i < k < |ws| && RanAt(ok, ws, steps, i, b, make, Issued(invite))
    ensures b < |ws[k].nodes| && CurrentAddresses(ws[k].nodes[b].s.net) != []
    ensures CurrentAddresses(ws[k].nodes[b].s.net)[0] in invite.addresses
  {
    RepliesFit(ok, ws[i].nodes[b].s.net, make, steps[i].saves);
    FilesGrow(ok, ws, steps, i, k, b);
    FirstKeyOf(ok, ws, steps, i, b);
    FirstKeyOf(ok, ws, steps, k, b);
    assert ws[k].nodes[b].s.store.file.handshakeKeys[0] == ws[i].nodes[b].s.store.file.handshakeKeys[0];
    assert invite.addresses[0] in invite.addresses;
  }

  lemma FirstKeyOf(ok: Id -> bool, ws: seq<World>, steps: seq<Step>, i: nat, b: nat)
    requires IsRun(ok, ws, steps) && i < |ws| && b < |ws[i].nodes|
    ensures var s := ws[i].nodes[b].s;
      && s.store.file.handshakeKeys != [] && CurrentAddresses(s.net) != []
      && CurrentAddresses(s.net)[0] == s.store.file.handshakeKeys[0].key
  {
    RunsKeepInv(ok, ws, steps, i);
    var s := ws[i].nodes[b].s;
    assert StateOk(ws[i].roles, ws[i].answered, b, s);
    FirstAddress(s.net.handshakeKeys);
    assert s.net.handshakeKeys[0] == s.store.file.handshakeKeys[0];
  }

  /** Daemon `b` has the mirror of an entry whose identity is `m`. */
  ghost predicate Mirrors(net: Network, m: Id) {
    exists f :: 0 <= f < |net.peers| && net.peers[f].peer == Some(m)
  }

  lemma ResultOfWelcome(w: World, b: nat, cmd: Command, o: Outcome, store: Store)
    requires b < |w.nodes| && ReplyFits(w.nodes[b].s.net, cmd, o) && o.reply.Welcomed?
    ensures
      var w1 := Resulting(w, b, cmd, o, store);
      && |w1.nodes| == |w.nodes| && w1.now == w.now
      && w1.nodes[b].s == w.nodes[b].s.(net := o.net, store := store)
      && w.nextConn in w1.conns && w1.conns[w.nextConn] == Conn(b, cmd.caller, PeerAsker(o.reply.welcome.alias))
  {
  }

  lemma KnownPeerReply(ok: Id -> bool, net: Network, m: Id, on: string)
    requires Sound(net) && Mirrors(net, m)
    ensures
      var o := Execute(ok, net, Greet(m, on, PeerHello), true);
      && o.reply.Welcomed? && o.reply.welcome.Ok? && o.writes == SaveWrites(o.net, true)
      && o.net.devices == net.devices && o.net.handshakeKeys == net.handshakeKeys
  {
    assert PeerByKey(net, m).Some?;
    KnownIsWelcomed(ok, net, m, on, PeerHello);
    GreetingTouchesOneEntry(net, m, on, PeerHello);
  }

  /** A known caller greeting as a peer is welcomed, and nothing a resolution looks at
      changes. */
  lemma KnownPeerIsWelcomed(ok: Id -> bool, w: World, b: nat, m: Id, on: string)
    requires Inv(ok, w) && b < |w.nodes| && Mirrors(w.nodes[b].s.net, m)
    ensures
      var s := w.nodes[b].s;
      var w1 := Ran(ok, w, b, Greet(m, on, PeerHello), true);
      && |w1.nodes| == |w.nodes| && w1.now == w.now
      && w1.nodes[b].s.live == s.live && w1.nodes[b].s.store.keys == s.store.keys
      && w1.nodes[b].s.net.devices == s.net.devices && w1.nodes[b].s.net.handshakeKeys == s.net.handshakeKeys
      && w.nextConn in w1.conns && w1.conns[w.nextConn].node == b && w1.conns[w.nextConn].asker.PeerAsker?
  {
    var s := w.nodes[b].s;
    assert Sound(s.net) by {
      assert StateOk(w.roles, w.answered, b, s);
    }
    var cmd := Greet(m, on, PeerHello);
    var o := Execute(ok, s.net, cmd, true);
    KnownPeerReply(ok, s.net, m, on);
    RepliesFit(ok, s.net, cmd, true);
    assert SaveWrites(o.net, true)[..3] == SaveWrites(o.net, true);
    StoppedSave(s.store, o.net, true, 3);
    ResultOfWelcome(w, b, cmd, o, ApplyAll(s.store, o.writes));
  }

  /** An entry under an identity minted to accept a daemon's invite is known at that daemon. */
  lemma MirroredInMemory(ok: Id -> bool, ws: seq<World>, steps: seq<Step>,
                         i: nat, b: nat, make: Command, invite: Invite,
                         j: nat, a: nat, begin: Command, k: nat, n: nat, e: Peer)
    requires IsRun(ok, ws, steps) && i < j < k < |ws| && n < |ws[k].nodes|
    requires make.MakeInvite? && RanAt(ok, ws, steps, i, b, make, Issued(invite))
    requires begin.BeginAccept? && begin.invite == invite && Attempts(steps, j, a, begin)
    requires Holds(ws[k].nodes[n].s, e) && e.mine == begin.key
    ensures b < |ws[k].nodes| && Mirrors(ws[k].nodes[b].s.net, e.mine)
  {
    MirroredEdges(ok, ws, steps, i, b, make, invite, j, a, begin, k, n, e);
  }

  /** A device of daemon `a`, asking for `name` at the peer whose entry has identity `m`. */
  ghost predicate MayAsk(w: World, a: nat, i: nat, m: Id, address: Id) {
    && a < |w.nodes| && w.nodes[a].up && i < |w.nodes[a].s.net.peers|
    && w.nodes[a].s.net.peers[i].mine == m && address in w.nodes[a].s.net.peers[i].addresses
  }

  /** The device can be found and a ticket for it signed. */
  ghost predicate CanLocate(s: State, name: string) {
    DeviceByName(s.net, name).Some? && s.net.devices[DeviceByName(s.net, name).value].keys != [] && name in s.live
  }

  /** Its address to sign with can be used, decodes, and is one the device knows its parent by. */
  ghost predicate CanSign(ok: Id -> bool, s: State, parent: seq<Id>) {
    && CurrentAddresses(s.net) != [] && CurrentAddresses(s.net)[0] in s.store.keys
    && ok(CurrentAddresses(s.net)[0]) && CurrentAddresses(s.net)[0] in parent
  }

  /** The asker is told the device's key, where it listens, and a ticket for the asking key,
      with which, if its signature is sound, the device admits that key exactly until five
      minutes after `now`. */
  ghost predicate Answers(ok: Id -> bool, scheme: T.Scheme, s: State, config: DeviceConfig, asking: Id,
                          now: nat, say: Say, later: nat)
    requires CanLocate(s, config.name)
  {
    && say.Resolved?
    && say.device == s.net.devices[DeviceByName(s.net, config.name).value].keys[0]
    && say.hints == s.live[config.name]
    && say.ticket.claims.caller == asking
    && (scheme.Signs(say.ticket.claims) ==>
          (later <= now + T.LIFETIME_SECS <==>
             Judged(ok, scheme, config, asking, Some(say.ticket), later).Admitted?))
  }

  lemma SealIsAdmitted(ok: Id -> bool, scheme: T.Scheme, config: DeviceConfig, claims: T.Claims, later: nat)
    requires scheme.Signs(claims) && ok(claims.issuer) && claims.issuer in config.parent && claims.name == config.name
    ensures later <= claims.validUntil <==>
            Judged(ok, scheme, config, claims.caller, Some(T.Seal(scheme, claims)), later).Admitted?
  {
    T.SealedTicketVerifies(ok, scheme, claims, claims.caller, config.parent, later);
    JudgedByTicket(ok, scheme, config, claims.caller, T.Seal(scheme, claims), later);
  }

  lemma JudgedByTicket(ok: Id -> bool, scheme: T.Scheme, config: DeviceConfig, caller: Id, ticket: T.Ticket, now: nat)
    requires ticket.claims.name == config.name
    ensures Judged(ok, scheme, config, caller, Some(ticket), now).Admitted? <==>
            T.Verify(ok, scheme, ticket, caller, config.parent, now).None?
  {
  }

  lemma PeerIsGranted(ok: Id -> bool, s: State, now: nat, alias: string, key: Id, name: string, asking: Id,
                      parent: seq<Id>)
    requires CanLocate(s, name) && ok(asking) && CanSign(ok, s, parent) && now + T.LIFETIME_SECS < T.U64_LIMIT
    ensures Granted(ok, s, now, PeerAsker(alias), key, Resolve(name, asking))
            == Some(T.Claims(name, asking, Some(alias), now + T.LIFETIME_SECS, CurrentAddresses(s.net)[0]))
    ensures Locate(ok, s, name, asking)
            == Some(Found(s.net.devices[DeviceByName(s.net, name).value].keys[0], s.live[name],
                          CurrentAddresses(s.net)[0]))
  {
  }

  /** A peer's ask for a device that can be found is answered so. */
  lemma PeerIsAnswered(ok: Id -> bool, scheme: T.Scheme, s: State, now: nat, alias: string, key: Id,
                       config: DeviceConfig, asking: Id, later: nat)
    requires CanLocate(s, config.name) && ok(asking) && CanSign(ok, s, config.parent)
    requires now + T.LIFETIME_SECS < T.U64_LIMIT
    ensures Answers(ok, scheme, s, config, asking, now,
                    Told(ok, scheme, s, now, PeerAsker(alias), key, Resolve(config.name, asking)), later)
  {
    PeerIsGranted(ok, s, now, alias, key, config.name, asking, config.parent);
    var claims := T.Claims(config.name, asking, Some(alias), now + T.LIFETIME_SECS, CurrentAddresses(s.net)[0]);
    if scheme.Signs(claims) {
      SealIsAdmitted(ok, scheme, config, claims, later);
    }
  }

  // -- on a connection of the world ------------------------------------------------------------------------

  lemma EntryIdentityDecodes(ok: Id -> bool, w: World, a: nat, i: nat)
    requires Inv(ok, w) && a < |w.nodes| && i < |w.nodes[a].s.net.peers|
    ensures ok(w.nodes[a].s.net.peers[i].mine)
  {
    assert StateOk(w.roles, w.answered, a, w.nodes[a].s);
    assert EntryOk(w.roles, w.answered, a, w.nodes[a].s.net.peers[i]);
  }

  lemma DialIsPermitted(ok: Id -> bool, w: World, a: nat, entry: nat, b: nat, m: Id, on: string, address: Id)
    requires Inv(ok, w) && MayAsk(w, a, entry, m, address)
    requires b < |w.nodes| && Endpoint(on, address) in w.nodes[b].s.bound
    ensures Permitted(ok, w, b, Greet(m, on, PeerHello))
  {
    EntryIdentityDecodes(ok, w, a, entry);
    assert EntryDials(w, address, m);
    assert Endpoint(on, address).alias == on && Endpoint(on, address).key == address;
  }

  lemma IssuerCanSign(ok: Id -> bool, w: World, b: nat, parent: seq<Id>)
    requires Inv(ok, w) && b < |w.nodes|
    requires CurrentAddresses(w.nodes[b].s.net) != [] ==> CurrentAddresses(w.nodes[b].s.net)[0] in parent
    ensures CanSign(ok, w.nodes[b].s, parent)
  {
    assert StateOk(w.roles, w.answered, b, w.nodes[b].s);
    FirstAddress(w.nodes[b].s.net.handshakeKeys);
  }

  /** What the steps of the world come to. If `a` has an entry for a peer, `b` knows it, one of
      the addresses `a` holds is bound at `b`, and the device has enrolled at `b` and is
      connected, then the dial `a` may make is let through, and asking on the connection it
      opens gets claims which, sealed, the device admits. */
  lemma DialledAskIsAdmitted(ok: Id -> bool, scheme: T.Scheme, ws: seq<World>, steps: seq<Step>,
                             i: nat, b: nat, make: Command, invite: Invite, config: DeviceConfig,
                             k: nat, a: nat, entry: nat, m: Id, on: string, address: Id, asking: Id, later: nat)
    requires IsRun(ok, ws, steps) && i < k < |ws|
    requires make.MakeDeviceInvite? && RanAt(ok, ws, steps, i, b, make, Issued(invite))
    requires config.parent == invite.addresses && config.name == make.name
    requires MayAsk(ws[k], a, entry, m, address)
    requires b < |ws[k].nodes| && Mirrors(ws[k].nodes[b].s.net, m) && Endpoint(on, address) in ws[k].nodes[b].s.bound
    requires CanLocate(ws[k].nodes[b].s, config.name) && ok(asking)
    requires ws[k].now + T.LIFETIME_SECS < T.U64_LIMIT
    ensures Permitted(ok, ws[k], b, Greet(m, on, PeerHello))
    ensures
      var w := ws[k];
      var w1 := Ran(ok, w, b, Greet(m, on, PeerHello), true);
      && w.nextConn in w1.conns && w1.conns[w.nextConn].node == b < |w1.nodes| && w1.now == w.now
      && var claims := TicketFor(ok, w1, w.nextConn, Resolve(config.name, asking));
         && claims.Some? && claims.value.caller == asking
         && (scheme.Signs(claims.value) ==>
               (later <= w.now + T.LIFETIME_SECS <==>
                  Judged(ok, scheme, config, asking, Some(T.Seal(scheme, claims.value)), later).Admitted?))
  {
    var w := ws[k];
    RunsKeepInv(ok, ws, steps, k);
    SignsWithAnInvitedAddress(ok, ws, steps, i, b, make, invite, k);
    DialIsPermitted(ok, w, a, entry, b, m, on, address);
    KnownPeerIsWelcomed(ok, w, b, m, on);
    IssuerCanSign(ok, w, b, config.parent);
    TicketIsAdmitted(ok, scheme, w.nodes[b].s, Ran(ok, w, b, Greet(m, on, PeerHello), true), w.nextConn,
                     config, asking, later);
  }

  /** A resolution sees no difference between the two states. */
  ghost predicate SameToLocate(s: State, s': State) {
    && s'.net.devices == s.net.devices && s'.net.handshakeKeys == s.net.handshakeKeys
    && s'.live == s.live && s'.store.keys == s.store.keys
  }

  lemma TicketIsAdmitted(ok: Id -> bool, scheme: T.Scheme, s: State, w: World, conn: nat, config: DeviceConfig,
                         asking: Id, later: nat)
    requires conn in w.conns && w.conns[conn].node < |w.nodes| && w.conns[conn].asker.PeerAsker?
    requires SameToLocate(s, w.nodes[w.conns[conn].node].s)
    requires CanLocate(s, config.name) && ok(asking) && CanSign(ok, s, config.parent)
    requires w.now + T.LIFETIME_SECS < T.U64_LIMIT
    ensures
      var claims := TicketFor(ok, w, conn, Resolve(config.name, asking));
      && claims.Some? && claims.value.caller == asking
      && (scheme.Signs(claims.value) ==>
            (later <= w.now + T.LIFETIME_SECS <==>
               Judged(ok, scheme, config, asking, Some(T.Seal(scheme, claims.value)), later).Admitted?))
  {
    var c := w.conns[conn];
    PeerIsGranted(ok, w.nodes[c.node].s, w.now, c.asker.alias, c.key, config.name, asking, config.parent);
    var claims := TicketFor(ok, w, conn, Resolve(config.name, asking)).value;
    if scheme.Signs(claims) {
      SealIsAdmitted(ok, scheme, config, claims, later);
    }
  }

  // -- from the device's ask to the other device's door ------------------------------------------------------

  lemma AnswersAlike(ok: Id -> bool, scheme: T.Scheme, s: State, s': State, config: DeviceConfig, asking: Id,
                     now: nat, say: Say, later: nat)
    requires SameToLocate(s, s') && CanLocate(s, config.name) && CanLocate(s', config.name)
    requires Answers(ok, scheme, s', config, asking, now, say, later)
    ensures Answers(ok, scheme, s, config, asking, now, say, later)
  {
  }

  lemma TriesLeaveAlike(ok: Id -> bool, b: State, after: State, caller: Id, addresses: seq<Id>, trips: seq<Retry.Trip>)
    requires Sound(b.net) && Mirrors(b.net, caller) && Retry.Dialable(ok, b.net, addresses, trips)
    requires Retry.GetsThrough(trips)
    requires after.net == Retry.Tries(ok, b.net, caller, PeerHello, addresses, trips, false).net
    requires after.live == b.live && after.store.keys == b.store.keys
    ensures SameToLocate(b, after)
    ensures
      var welcome := Retry.Tries(ok, b.net, caller, PeerHello, addresses, trips, false).welcome;
      welcome.Some? && welcome.value.Ok?
  {
    assert PeerByKey(b.net, caller).Some?;
    Retry.KnownIsWelcomedOnRoundTrip(ok, b.net, caller, PeerHello, addresses, trips);
  }

  /** Asking for a device of a peer, over any pattern of losses that lets one attempt through and
      back, at a daemon `b` that knows the dialling identity: the device is told. */
  lemma AskedForIsAnswered(ok: Id -> bool, scheme: T.Scheme, s: State, b: State, after: State, now: nat,
                           asker: Asker, key: Id, ask: Ask, trips: seq<Retry.Trip>, config: DeviceConfig, later: nat)
    requires ask.ResolveFor? && ask.name == config.name && Retry.Dials(s.net, ask, trips)
    requires now + T.LIFETIME_SECS < T.U64_LIMIT && ok(key)
    requires Retry.EntryToAsk(ok, s, asker, ask.alias).Some?
    requires
      var entry := Retry.EntryToAsk(ok, s, asker, ask.alias).value;
      Mirrors(b.net, entry.mine) && Retry.Dialable(ok, b.net, entry.addresses, trips)
    requires Retry.GetsThrough(trips)
    requires Sound(b.net) && CanLocate(b, config.name) && CanSign(ok, b, config.parent)
    requires after.net == Retry.NetAfter(ok, s, b.net, asker, ask, trips)
    requires after.live == b.live && after.store.keys == b.store.keys
    ensures Answers(ok, scheme, b, config, key, now,
                    Retry.ForDevice(ok, scheme, s, b.net, after, now, asker, key, ask, trips), later)
  {
    var entry := Retry.EntryToAsk(ok, s, asker, ask.alias).value;
    TriesLeaveAlike(ok, b, after, entry.mine, entry.addresses, trips);
    var welcome := Retry.Tries(ok, b.net, entry.mine, PeerHello, entry.addresses, trips, false).welcome;
    PeerIsAnswered(ok, scheme, after, now, welcome.value.alias, entry.mine, config, key, later);
    var say := Told(ok, scheme, after, now, PeerAsker(welcome.value.alias), entry.mine, Resolve(config.name, key));
    AnswersAlike(ok, scheme, b, after, config, key, now, say, later);
  }

  /** Every attempt that arrives does so at the endpoint bound for the address dialled. */
  ghost predicate Reaches(s: State, addresses: seq<Id>, trips: seq<Retry.Trip>) {
    && |trips| == |addresses|
    && forall j :: 0 <= j < |trips| && trips[j].Arrives? ==> Endpoint(trips[j].on, addresses[j]) in s.bound
  }

  lemma ReachesIsDialable(ok: Id -> bool, w: World, b: nat, addresses: seq<Id>, trips: seq<Retry.Trip>)
    requires Inv(ok, w) && b < |w.nodes| && Reaches(w.nodes[b].s, addresses, trips) && AllDecode(ok, addresses)
    ensures Retry.Dialable(ok, w.nodes[b].s.net, addresses, trips)
  {
    var s := w.nodes[b].s;
    assert StateOk(w.roles, w.answered, b, s);
    forall j | 0 <= j < |trips| && trips[j].Arrives? ensures NamesHandshakeKey(s.net.handshakeKeys, trips[j].on) {
      var e := Endpoint(trips[j].on, addresses[j]);
      assert e in s.bound;
    }
  }

  /** Step `e` enrolled a device that dialled with `key` at daemon `b` by this invite, and `config`
      is what the device made of its welcome. */
  ghost predicate EnrolledAt(ok: Id -> bool, ws: seq<World>, steps: seq<Step>, e: nat, b: nat, invite: Invite,
                             key: Id, config: DeviceConfig)
    requires IsRun(ok, ws, steps)
  {
    && Welcomes(ok, ws, steps, e, b, invite.identity, key)
    && var reply := Execute(ok, ws[e].nodes[b].s.net, steps[e].cmd, steps[e].saves).reply;
       reply.welcome.Ok? && config == Configured(reply.welcome, key, invite)
  }

  lemma WelcomedUnderDeviceInvite(ok: Id -> bool, w: World, b: nat, greet: Command, saves: bool, p: Id, name: string)
    requires Inv(ok, w) && b < |w.nodes| && greet.Greet?
    requires p in w.roles && w.roles[p] == DeviceInvite(b, name)
    requires !Recognise(w.nodes[b].s.net, greet.caller, greet.hello).Stranger?
    requires AnsweredAs(w.nodes[b].s.net, greet.caller, greet.hello) == p
    requires Execute(ok, w.nodes[b].s.net, greet, saves).reply.Welcomed?
    ensures
      var reply := Execute(ok, w.nodes[b].s.net, greet, saves).reply;
      reply.welcome.Ok? && reply.welcome.alias == name
  {
    assert StateOk(w.roles, w.answered, b, w.nodes[b].s);
  }

  /** A device knows its parent by the addresses of its invite and itself by the name the invite was
      made for, and from its enrolment on the parent has its key, and no other, under that name. */
  lemma EnrolledIsHeld(ok: Id -> bool, ws: seq<World>, steps: seq<Step>, i: nat, b: nat, make: Command,
                       invite: Invite, e: nat, key: Id, config: DeviceConfig, k: nat)
    requires IsRun(ok, ws, steps) && i < e < k < |ws|
    requires make.MakeDeviceInvite? && RanAt(ok, ws, steps, i, b, make, Issued(invite))
    requires EnrolledAt(ok, ws, steps, e, b, invite, key, config)
    ensures config.key == key && config.parent == invite.addresses && config.name == make.name
    ensures b < |ws[k].nodes| && DeviceByName(ws[k].nodes[b].s.net, config.name).Some?
    ensures
      var net := ws[k].nodes[b].s.net;
      net.devices[DeviceByName(net, config.name).value].keys == [key]
  {
    InviteIsKept(ok, ws, steps, i, b, make, invite, e);
    InviteIsKept(ok, ws, steps, i, b, make, invite, k);
    RunsKeepInv(ok, ws, steps, e);
    WelcomedUnderDeviceInvite(ok, ws[e], b, steps[e].cmd, steps[e].saves, invite.identity, make.name);
    WelcomeIsRemembered(ok, ws, steps, e, b, invite.identity, key, k);
    RunsKeepInv(ok, ws, steps, k);
    var a := (invite.identity, key);
    assert Recorded(ws[k], a.0, a.1);
    RecordedTwice(ok, ws[k], a.0, a.1);
    TheDeviceOfThatName(ok, ws[k], b, make.name, key);
  }

  lemma TheDeviceOfThatName(ok: Id -> bool, w: World, b: nat, name: string, key: Id)
    requires Inv(ok, w) && b < |w.nodes| && HasDevice(w.nodes[b].s.net, name, key)
    ensures DeviceByName(w.nodes[b].s.net, name).Some?
    ensures w.nodes[b].s.net.devices[DeviceByName(w.nodes[b].s.net, name).value].keys == [key]
  {
    var net := w.nodes[b].s.net;
    assert StateOk(w.roles, w.answered, b, w.nodes[b].s);
    var d :| 0 <= d < |net.devices| && net.devices[d].name == name && net.devices[d].keys == [key];
    assert DeviceByName(net, name) == Some(d);
  }

  /** The ticket's alias is that of the entry that holds the key dialled with. */
  ghost predicate NamesTheAsker(net: Network, caller: Id, say: Say) {
    && say.Resolved? && PeerByKey(net, caller).Some?
    && say.ticket.claims.alias == Some(net.peers[PeerByKey(net, caller).value].alias)
  }

  lemma TicketNamesTheAsker(ok: Id -> bool, scheme: T.Scheme, s: State, b: State, after: State, now: nat,
                            asker: Asker, key: Id, ask: Ask, trips: seq<Retry.Trip>)
    requires ask.ResolveFor? && Retry.Dials(s.net, ask, trips) && now + T.LIFETIME_SECS < T.U64_LIMIT
    requires Retry.EntryToAsk(ok, s, asker, ask.alias).Some?
    requires after.net == Retry.NetAfter(ok, s, b.net, asker, ask, trips) && after.live == b.live
    ensures
      var say := Retry.ForDevice(ok, scheme, s, b.net, after, now, asker, key, ask, trips);
      say.Resolved? ==> NamesTheAsker(b.net, Retry.EntryToAsk(ok, s, asker, ask.alias).value.mine, say)
  {
    var entry := Retry.EntryToAsk(ok, s, asker, ask.alias).value;
    Retry.AskedIsVouched(ok, scheme, b, entry.mine, entry.addresses, trips, ask.name, key, now);
  }

  /** End-to-end resolution, in any world of any run. A device that daemon `a` has connected asks
      it for a device of a peer by the alias of an entry. If `b` knows that entry's identity,
      some attempt to reach `b` at the entry's addresses gets through and back, and the asked-for
      device has enrolled at `b` and is connected, then whatever else is lost the answer is that
      very device's key, where it listens and a ticket for the asking device's own key, under the
      alias `b` has for `a`, and with what it kept of its enrolment the device admits that key with
      it until its five minutes are up and not after. Each attempt is one the world lets through. */
  lemma ResolvedIsAdmitted(ok: Id -> bool, scheme: T.Scheme, ws: seq<World>, steps: seq<Step>,
                           i: nat, b: nat, make: Command, invite: Invite, e: nat, device: Id, config: DeviceConfig,
                           k: nat, conn: nat, ask: Ask, trips: seq<Retry.Trip>, after: State, later: nat)
    requires IsRun(ok, ws, steps) && i < e < k < |ws| && ws[k].now + T.LIFETIME_SECS < T.U64_LIMIT
    requires make.MakeDeviceInvite? && RanAt(ok, ws, steps, i, b, make, Issued(invite))
    requires EnrolledAt(ok, ws, steps, e, b, invite, device, config)
    requires conn in ws[k].conns && ws[k].conns[conn].node < |ws[k].nodes|
    requires ask.ResolveFor? && ask.name == config.name
    requires Retry.EntryToAsk(ok, ws[k].nodes[ws[k].conns[conn].node].s, ws[k].conns[conn].asker, ask.alias).Some?
    requires b < |ws[k].nodes| && CanLocate(ws[k].nodes[b].s, config.name)
    requires
      var a := ws[k].nodes[ws[k].conns[conn].node].s;
      var entry := Retry.EntryToAsk(ok, a, ws[k].conns[conn].asker, ask.alias).value;
      && Mirrors(ws[k].nodes[b].s.net, entry.mine) && AllDecode(ok, entry.addresses)
      && Reaches(ws[k].nodes[b].s, entry.addresses, trips)
      && Retry.Dials(a.net, ask, trips)
      && after.net == Retry.NetAfter(ok, a, ws[k].nodes[b].s.net, ws[k].conns[conn].asker, ask, trips)
    requires Retry.GetsThrough(trips)
    requires after.live == ws[k].nodes[b].s.live && after.store.keys == ws[k].nodes[b].s.store.keys
    ensures
      var c := ws[k].conns[conn];
      var a := ws[k].nodes[c.node].s;
      var say := Retry.ForDevice(ok, scheme, a, ws[k].nodes[b].s.net, after, ws[k].now, c.asker, c.key, ask, trips);
      && Answers(ok, scheme, ws[k].nodes[b].s, config, c.key, ws[k].now, say, later)
      && say.device == device == config.key
      && NamesTheAsker(ws[k].nodes[b].s.net, Retry.EntryToAsk(ok, a, c.asker, ask.alias).value.mine, say)
      && var entry := Retry.EntryToAsk(ok, a, c.asker, ask.alias).value;
         forall j :: 0 <= j < |trips| && trips[j].Arrives? ==>
           Permitted(ok, ws[k], b, Greet(entry.mine, trips[j].on, PeerHello))
  {
    var w := ws[k];
    var c := w.conns[conn];
    var a := w.nodes[c.node].s;
    var entry := Retry.EntryToAsk(ok, a, c.asker, ask.alias).value;
    RunsKeepInv(ok, ws, steps, k);
    EnrolledIsHeld(ok, ws, steps, i, b, make, invite, e, device, config, k);
    RunsKeepConnInv(ok, ws, steps, k);
    RunsKeepKeysDecoding(ok, ws, steps, k);
    SignsWithAnInvitedAddress(ok, ws, steps, i, b, make, invite, k);
    IssuerCanSign(ok, w, b, config.parent);
    ReachesIsDialable(ok, w, b, entry.addresses, trips);
    assert Sound(w.nodes[b].s.net) by {
      assert StateOk(w.roles, w.answered, b, w.nodes[b].s);
    }
    TicketNamesTheAsker(ok, scheme, a, w.nodes[b].s, after, w.now, c.asker, c.key, ask, trips);
    AskedForIsAnswered(ok, scheme, a, w.nodes[b].s, after, w.now, c.asker, c.key, ask, trips, config, later);
    forall j | 0 <= j < |trips| && trips[j].Arrives?
      ensures Permitted(ok, w, b, Greet(entry.mine, trips[j].on, PeerHello))
    {
      DialIsPermitted(ok, w, c.node, PeerByAlias(a.net, ask.alias).value, b, entry.mine,
                      trips[j].on, entry.addresses[j]);
    }
  }

  /** A device looking up a device of a peer and knocking at its door: what its parent tells it
      is what it presents, and under its own key. */
  method Visit(parent: D.Daemon, peer: D.Daemon, asker: Asker, key: Id, name: string, alias: string,
               trips: seq<Retry.Trip>, scheme: T.Scheme, now: nat, target: DeviceConfig, later: nat)
    returns (verdict: Option<Verdict>)
    requires parent != peer && parent.ok == peer.ok && now + T.LIFETIME_SECS < T.U64_LIMIT
    requires Retry.Dials(parent.net, ResolveFor(name, alias), trips)
    modifies peer
    ensures peer.net == Retry.NetAfter(parent.ok, parent.Now(), old(peer.net), asker, ResolveFor(name, alias), trips)
    ensures peer.live == old(peer.live) && peer.keys == old(peer.keys)
    ensures
      var say := Retry.ForDevice(parent.ok, scheme, parent.Now(), old(peer.net), peer.Now(), now, asker, key,
                                 ResolveFor(name, alias), trips);
      verdict == if say.Denied? then None
                 else Some(Judged(parent.ok, scheme, target, key, Some(say.ticket), later))
  {
    var say := Retry.Answer(parent, peer, asker, key, ResolveFor(name, alias), trips, scheme, now);
    if say.Denied? {
      return None;
    }
    var judged := Handle(parent.ok, scheme, target, key, Some(say.ticket), later);
    return Some(judged);
  }
}
