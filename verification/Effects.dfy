/** What each command does, told by the fields of the entry it adds or changes, of the file and
    of the reply. */
module Effects {
  import opened Wrappers
  import opened Proto
  import opened Network
  import opened Commands
  import T = Ticket

  // -- one more entry ---------------------------------------------------------------------------

  /** One more address, and nothing else changed. */
  ghost predicate GainsKey(net: Network, net': Network) {
    && net'.dns == net.dns && net'.peers == net.peers && net'.devices == net.devices
    && |net'.handshakeKeys| == |net.handshakeKeys| + 1
    && forall i :: 0 <= i < |net.handshakeKeys| ==> net'.handshakeKeys[i] == net.handshakeKeys[i]
  }

  ghost predicate GainsPeer(net: Network, net': Network) {
    && net'.dns == net.dns && net'.handshakeKeys == net.handshakeKeys && net'.devices == net.devices
    && |net'.peers| == |net.peers| + 1
    && forall i :: 0 <= i < |net.peers| ==> net'.peers[i] == net.peers[i]
  }

  ghost predicate GainsDevice(net: Network, net': Network) {
    && net'.dns == net.dns && net'.handshakeKeys == net.handshakeKeys && net'.peers == net.peers
    && |net'.devices| == |net.devices| + 1
    && forall i :: 0 <= i < |net.devices| ==> net'.devices[i] == net.devices[i]
  }

  /** The entry of an accepted invite. Where they are looked for by name is what their welcome said,
      where they are reached without is what the invite said. */
  ghost predicate IsAccepted(e: Peer, alias: string, invite: Invite, mine: Id, addresses: seq<Id>, dns: seq<string>) {
    && e.alias == alias && e.peer == Some(invite.identity) && e.mine == mine
    && e.addresses == addresses && e.dns == dns && e.hints == invite.hints && e.reachedOn.None?
  }

  /** The entry of an invite nobody has taken up. */
  ghost predicate IsPending(e: Peer, alias: string, mine: Id) {
    && e.alias == alias && e.peer.None? && e.mine == mine
    && e.addresses == [] && e.dns == [] && e.hints == [] && e.reachedOn.None?
  }

  ghost predicate IsPendingDevice(d: Device, name: string, invite: Id) {
    d.name == name && d.keys == [] && d.invite == Some(invite)
  }

  /** The invite leads to the daemon and names the minted identity. */
  ghost predicate LeadsTo(invite: Invite, net: Network, identity: Id, hints: seq<string>) {
    && invite.identity == identity && invite.addresses == CurrentAddresses(net)
    && invite.dns == net.dns && invite.hints == hints
  }

  // -- what a finished save leaves ----------------------------------------------------------------

  lemma SavedFile(store: Store, minting: seq<Write>, net: Network, saves: bool)
    requires minting == [] || exists key :: minting == [KeyFile(key)]
    ensures ApplyAll(store, minting + SaveWrites(net, saves)).file == if saves then net else store.file
    ensures ApplyAll(store, minting).file == store.file
  {
    var rest := SaveWrites(net, saves);
    assert rest[..|rest|] == rest;
    if minting == [] {
      assert [] + rest == rest;
      StoppedSave(store, net, saves, |rest|);
    } else {
      var key :| minting == [KeyFile(key)];
      assert (minting + rest)[1..] == rest && minting[1..] == [];
      StoppedSave(Apply(store, KeyFile(key)), net, saves, |rest|);
    }
  }

  /** The file after a command run to its end. */
  ghost function FileAfter(ok: Id -> bool, net: Network, cmd: Command, saves: bool, store: Store): Network {
    ApplyAll(store, Execute(ok, net, cmd, saves).writes).file
  }

  // -- commands that add an entry -------------------------------------------------------------------

  lemma OneMoreAddress(net: Network, net': Network)
    requires GainsKey(net, net')
    ensures
      var k := net'.handshakeKeys[|net.handshakeKeys|];
      CurrentAddresses(net') == CurrentAddresses(net) + if k.retired then [] else [k.key]
  {
    var k := net'.handshakeKeys[|net.handshakeKeys|];
    assert net'.handshakeKeys == net.handshakeKeys + [k] + [];
    AdvertisedInOrder(net.handshakeKeys, k, []);
  }

  /** A new address is advertised after the others, and can be found under its alias. */
  ghost predicate AddsAddress(net: Network, net': Network, alias: string, key: Id) {
    && GainsKey(net, net') && CurrentAddresses(net') == CurrentAddresses(net) + [key]
    && HandshakeByAlias(net', alias) == Some(|net.handshakeKeys|)
    && net'.handshakeKeys[|net.handshakeKeys|].key == key
  }

  lemma AddressAdded(net: Network, alias: string, key: Id)
    requires HandshakeByAlias(net, alias).None?
    ensures AddsAddress(net, net.(handshakeKeys := net.handshakeKeys + [HandshakeKey(alias, key, false)]), alias, key)
  {
    var net' := net.(handshakeKeys := net.handshakeKeys + [HandshakeKey(alias, key, false)]);
    OneMoreAddress(net, net');
    assert HandshakeByAlias(net', alias) == Some(|net.handshakeKeys|);
  }

  lemma NewAddressEffect(ok: Id -> bool, net: Network, alias: string, key: Id, saves: bool, store: Store)
    ensures
      var o := Execute(ok, net, NewAddress(alias, key), saves);
      var file := FileAfter(ok, net, NewAddress(alias, key), saves, store);
      if NamesHandshakeKey(net.handshakeKeys, alias) then o == Outcome(net, [], Refused) && file == store.file
      else
        && AddsAddress(net, o.net, alias, key)
        && (if saves then o.reply == Created(key) && file == o.net else o.reply.Refused? && file == store.file)
  {
    assert NamesHandshakeKey(net.handshakeKeys, alias) <==> HandshakeByAlias(net, alias).Some?;
    if HandshakeByAlias(net, alias).None? {
      var o := Execute(ok, net, NewAddress(alias, key), saves);
      SavedFile(store, [KeyFile(key)], o.net, saves);
      AddressAdded(net, alias, key);
    }
  }

  ghost predicate HasAlias(net: Network, alias: string) {
    exists i :: 0 <= i < |net.peers| && net.peers[i].alias == alias
  }

  ghost predicate HasName(net: Network, name: string) {
    exists i :: 0 <= i < |net.devices| && net.devices[i].name == name
  }

  /** An invite goes out exactly if the alias is free and the net with the new entry can be used and
      written. It is then on disk, and the invite says where this daemon is. */
  lemma MakeInviteEffect(ok: Id -> bool, net: Network, alias: string, key: Id, hints: seq<string>, saves: bool,
                         store: Store)
    ensures
      var o := Execute(ok, net, MakeInvite(alias, key, hints), saves);
      var file := FileAfter(ok, net, MakeInvite(alias, key, hints), saves, store);
      if HasAlias(net, alias) then o == Outcome(net, [], Refused) && file == store.file
      else
        && GainsPeer(net, o.net) && IsPending(o.net.peers[|net.peers|], alias, key)
        && (if saves && Valid(ok, o.net)
            then o.reply.Issued? && LeadsTo(o.reply.invite, net, key, hints) && file == o.net
            else o.reply.Refused? && file == store.file)
  {
    assert HasAlias(net, alias) <==> PeerByAlias(net, alias).Some?;
    if PeerByAlias(net, alias).None? {
      SavedFile(store, [KeyFile(key)], Execute(ok, net, MakeInvite(alias, key, hints), saves).net, saves);
    }
  }

  lemma MakeDeviceInviteEffect(ok: Id -> bool, net: Network, name: string, key: Id, hints: seq<string>, saves: bool,
                               store: Store)
    ensures
      var o := Execute(ok, net, MakeDeviceInvite(name, key, hints), saves);
      var file := FileAfter(ok, net, MakeDeviceInvite(name, key, hints), saves, store);
      if HasName(net, name) then o == Outcome(net, [], Refused) && file == store.file
      else
        && GainsDevice(net, o.net) && IsPendingDevice(o.net.devices[|net.devices|], name, key)
        && (if saves && Valid(ok, o.net)
            then o.reply.Issued? && LeadsTo(o.reply.invite, net, key, hints) && file == o.net
            else o.reply.Refused? && file == store.file)
  {
    assert HasName(net, name) <==> DeviceByName(net, name).Some?;
    if DeviceByName(net, name).None? {
      SavedFile(store, [KeyFile(key)], Execute(ok, net, MakeDeviceInvite(name, key, hints), saves).net, saves);
    }
  }

  /** The entry an accept leaves, whatever becomes of it: last in memory. It is accepted exactly if the
      net with it can be used and written; it is then on disk and found under its alias. */
  lemma CommitEffect(ok: Id -> bool, net: Network, commit: Command, saves: bool, store: Store)
    requires commit.CommitAccept?
    ensures
      var o := Execute(ok, net, commit, saves);
      var file := FileAfter(ok, net, commit, saves, store);
      && GainsPeer(net, o.net)
      && IsAccepted(o.net.peers[|net.peers|], commit.alias, commit.invite, commit.mine, commit.addresses, commit.dns)
      && (if saves && Valid(ok, o.net)
          then o.reply == Accepted(commit.alias) && file == o.net
               && PeerByAlias(o.net, commit.alias) == Some(|net.peers|)
          else o.reply.Refused? && file == store.file)
  {
    var o := Execute(ok, net, commit, saves);
    SavedFile(store, [], o.net, saves);
    if Valid(ok, o.net) {
      OnlyOfItsAlias(ok, o.net, |net.peers|);
    }
  }

  lemma OnlyOfItsAlias(ok: Id -> bool, net: Network, i: nat)
    requires Valid(ok, net) && i < |net.peers|
    ensures PeerByAlias(net, net.peers[i].alias) == Some(i)
  {
    assert PeerByAlias(net, net.peers[i].alias).value <= i;
  }

  // -- greetings ------------------------------------------------------------------------------------

  /** A greeting changes no address and no setting of ours, and is either refused or welcomed with
      where we are; whoever is welcomed is what the file says. */
  lemma GreetEffect(ok: Id -> bool, net: Network, caller: Id, on: string, hello: Hello, saves: bool, store: Store)
    ensures
      var o := Execute(ok, net, Greet(caller, on, hello), saves);
      var file := FileAfter(ok, net, Greet(caller, on, hello), saves, store);
      && o.net.dns == net.dns && o.net.handshakeKeys == net.handshakeKeys
      && |o.net.peers| == |net.peers| && |o.net.devices| == |net.devices|
      && (o.reply.Refused? ||
          (o.reply.Welcomed? && o.reply.welcome.Ok? && file == o.net
           && o.reply.welcome.addresses == CurrentAddresses(net) && o.reply.welcome.dns == net.dns))
  {
    if !Recognise(net, caller, hello).Stranger? {
      SavedFile(store, [], Greeted(net, caller, on, hello), saves);
      GreetingIsInPlace(net, caller, on, hello);
    }
  }

  lemma GreetingIsInPlace(net: Network, caller: Id, on: string, hello: Hello)
    requires !Recognise(net, caller, hello).Stranger?
    ensures
      var net' := Greeted(net, caller, on, hello);
      && net'.dns == net.dns && net'.handshakeKeys == net.handshakeKeys
      && |net'.peers| == |net.peers| && |net'.devices| == |net.devices|
  {
  }

  /** The alias a caller is greeted by: the entry's that holds its key; for a key nobody has, the name
      or alias of what the invite it answers was made for. */
  lemma WelcomedByAlias(ok: Id -> bool, net: Network, caller: Id, on: string, hello: Hello, saves: bool)
    requires Execute(ok, net, Greet(caller, on, hello), saves).reply.Welcomed?
    ensures
      var alias := Execute(ok, net, Greet(caller, on, hello), saves).reply.welcome.alias;
      match PeerByKey(net, caller)
      case Some(i) => alias == net.peers[i].alias
      case None =>
        && hello.Invited?
        && match PendingDeviceByInvite(net, hello.invitedTo)
           case Some(i) => alias == net.devices[i].name
           case None =>
             && PendingByMine(net, hello.invitedTo).Some?
             && alias == net.peers[PendingByMine(net, hello.invitedTo).value].alias
  {
  }

  // -- locating a device ----------------------------------------------------------------------------

  /** One of our devices of that name has enrolled and is connected, we can sign, and the caller is a
      key. */
  ghost predicate Findable(ok: Id -> bool, s: State, name: string, caller: Id) {
    && DeviceByName(s.net, name).Some? && s.net.devices[DeviceByName(s.net, name).value].keys != []
    && name in s.live
    && CurrentAddresses(s.net) != [] && CurrentAddresses(s.net)[0] in s.store.keys && ok(caller)
  }

  /** Where the device is, and a ticket to it: for `caller`, called `alias` if anything, for five
      minutes, and signed with our first address. */
  ghost predicate Points(scheme: T.Scheme, say: Say, s: State, name: string, caller: Id, alias: Option<string>,
                         now: nat)
  {
    && say.Resolved?
    && DeviceByName(s.net, name).Some? && s.net.devices[DeviceByName(s.net, name).value].keys != []
    && say.device == s.net.devices[DeviceByName(s.net, name).value].keys[0]
    && name in s.live && say.hints == s.live[name]
    && say.ticket.claims.name == name && say.ticket.claims.caller == caller && say.ticket.claims.alias == alias
    && say.ticket.claims.validUntil == now + T.LIFETIME_SECS
    && CurrentAddresses(s.net) != [] && say.ticket.claims.issuer == CurrentAddresses(s.net)[0]
    && say.ticket == T.Seal(scheme, say.ticket.claims)
  }

  /** Our devices are found for peers, under the alias they greeted us by and for whom they ask, and
      for our own devices, for themselves and under no alias. */
  lemma ToldIff(ok: Id -> bool, scheme: T.Scheme, s: State, now: nat, asker: Asker, key: Id, ask: Ask)
    requires now + T.LIFETIME_SECS < T.U64_LIMIT
    ensures
      var say := Told(ok, scheme, s, now, asker, key, ask);
      match ask
      case Resolve(name, caller) =>
        if asker.PeerAsker? && Findable(ok, s, name, caller)
        then Points(scheme, say, s, name, caller, Some(asker.alias), now) else say.Denied?
      case ResolveLocal(name) =>
        if asker.DeviceAsker? && Findable(ok, s, name, key)
        then Points(scheme, say, s, name, key, None, now) else say.Denied?
      case ResolveFor(_, _) => say.Denied?
  {
  }
}
