/** The daemon itself: its fields, and its lock-held sections as methods. Each is held to what
    `Commands` says the command does, on every input and whether or not the file can be
    written. */
module Daemon {
  import opened Wrappers
  import opened Proto
  import opened Network
  import opened Commands
  import opened Effects
  import T = Ticket

  lemma SavedStore(store: Store, net: Network)
    ensures ApplyAll(store, SaveWrites(net, true)) == Store(net, Absent, store.keys)
    ensures ApplyAll(store, SaveWrites(net, false)) == store.(temp := Torn)
  {
    var one := Apply(store, OpenTemp);
    var two := Apply(one, FillTemp(net));
    assert SaveWrites(net, true)[1..] == [FillTemp(net), Rename];
    assert [FillTemp(net), Rename][1..] == [Rename];
    assert [Rename][1..] == [];
    assert ApplyAll(two, [Rename]) == Apply(two, Rename);
    assert ApplyAll(one, [FillTemp(net), Rename]) == Apply(two, Rename);
    assert SaveWrites(net, false)[1..] == [];
  }

  lemma MintedFirst(store: Store, key: Id, writes: seq<Write>)
    ensures ApplyAll(store, [KeyFile(key)] + writes) == ApplyAll(store.(keys := store.keys + {key}), writes)
    ensures ApplyAll(store, [KeyFile(key)]) == store.(keys := store.keys + {key})
  {
    assert ([KeyFile(key)] + writes)[1..] == writes;
    assert [KeyFile(key)][1..] == [];
  }

  /** Nothing is written, and so nothing changes on disk, when the changed net is refused. */
  lemma CheckedGreeting(ok: Id -> bool, net: Network, caller: Id, on: string, hello: Hello, saves: bool)
    requires Recognise(net, caller, hello).Enrols? || Recognise(net, caller, hello).Pairs?
    ensures
      var net' := Greeted(net, caller, on, hello);
      Execute(ok, net, Command.Greet(caller, on, hello), saves)
        == Outcome(net', if Valid(ok, net') then SaveWrites(net', saves) else [],
                   if Valid(ok, net') && saves
                   then Welcomed(Ok(AnswersTo(net, caller, hello), CurrentAddresses(net'), net'.dns)) else Refused)
    ensures forall store: Store :: ApplyAll(store, []) == store
  {
    var net' := Greeted(net, caller, on, hello);
    assert [] + SaveWrites(net', saves) == SaveWrites(net', saves);
  }

  lemma UncheckedGreeting(ok: Id -> bool, net: Network, caller: Id, on: string, hello: Hello, saves: bool)
    requires Recognise(net, caller, hello).Known?
    ensures
      var net' := Greeted(net, caller, on, hello);
      Execute(ok, net, Command.Greet(caller, on, hello), saves)
        == Outcome(net', SaveWrites(net', saves),
                   if saves then Welcomed(Ok(AnswersTo(net, caller, hello), CurrentAddresses(net'), net'.dns))
                   else Refused)
  {
    var net' := Greeted(net, caller, on, hello);
    assert [] + SaveWrites(net', saves) == SaveWrites(net', saves);
  }

  class Daemon {
    /** Which texts decode as an id52. */
    const ok: Id -> bool

    var net: Network
    /** `network.toml`, `network.toml.tmp` and the key directory. */
    var file: Network
    var temp: Temp
    var keys: set<Id>
    var bound: seq<Endpoint>
    var live: map<string, seq<string>>

    ghost function OnDisk(): Store
      reads this
    {
      Store(file, temp, keys)
    }

    ghost function Now(): State
      reads this
    {
      State(net, OnDisk(), bound, live)
    }

    /** What a command is held to. */
    twostate predicate Did(cmd: Command, saves: bool, reply: Reply)
      reads this
    {
      var o := Execute(ok, old(net), cmd, saves);
      && reply == o.reply
      && Now() == old(Now()).(net := o.net, store := ApplyAll(old(OnDisk()), o.writes))
    }

    constructor (ok: Id -> bool, store: Store, bound: seq<Endpoint>)
      ensures Now() == State(store.file, store, bound, map[]) && this.ok == ok
    {
      this.ok := ok;
      net, file, temp, keys := store.file, store.file, store.temp, store.keys;
      this.bound, live := bound, map[];
    }

    /** Starts from a home directory exactly if its file is usable and every handshake key,
        retired ones included, has its secret. */
    static method Start(ok: Id -> bool, store: Store) returns (daemon: Option<Daemon>)
      ensures daemon.Some? <==> Starts(ok, store)
      ensures daemon.Some? <==>
                && Valid(ok, store.file) && store.file.handshakeKeys != []
                && forall i :: 0 <= i < |store.file.handshakeKeys| ==> store.file.handshakeKeys[i].key in store.keys
      ensures daemon.Some? ==> fresh(daemon.value) && daemon.value.Now() == Started(store) && daemon.value.ok == ok
      ensures daemon.Some? ==>
                var d := daemon.value;
                && d.net == store.file == d.file && d.temp == store.temp && d.keys == store.keys && d.live == map[]
                && |d.bound| == |store.file.handshakeKeys|
                && forall i :: 0 <= i < |d.bound| ==>
                     && d.bound[i].alias == store.file.handshakeKeys[i].alias
                     && d.bound[i].key == store.file.handshakeKeys[i].key
    {
      var fault := Check(ok, store.file);
      if fault.Some? {
        return None;
      }
      var bound: seq<Endpoint> := [];
      var hks := store.file.handshakeKeys;
      for i := 0 to |hks|
        invariant |bound| == i
        invariant forall j :: 0 <= j < i ==> hks[j].key in store.keys && bound[j] == Endpoint(hks[j].alias, hks[j].key)
      {
        if hks[i].key !in store.keys {
          return None;
        }
        bound := bound + [Endpoint(hks[i].alias, hks[i].key)];
      }
      if |bound| == 0 {
        return None;
      }
      assert bound == Endpoints(hks);
      var d := new Daemon(ok, store, bound);
      return Some(d);
    }

    /** Writes the net to the temporary file and renames it into place. */
    method Save(saves: bool) returns (saved: bool)
      modifies this`file, this`temp
      ensures saved == saves
      ensures OnDisk() == ApplyAll(old(OnDisk()), SaveWrites(net, saves))
      ensures file == if saves then net else old(file)
    {
      SavedStore(OnDisk(), net);
      temp := Torn;
      if !saves {
        return false;
      }
      temp := Whole(net);
      file, temp := temp.net, Absent;
      return true;
    }

    method CheckAndSave(saves: bool) returns (saved: bool)
      modifies this`file, this`temp
      ensures saved <==> saves && Valid(ok, net)
      ensures OnDisk() == if Valid(ok, net) then ApplyAll(old(OnDisk()), SaveWrites(net, saves)) else old(OnDisk())
      ensures file == if saved then net else old(file)
    {
      var fault := Check(ok, net);
      if fault.Some? {
        return false;
      }
      saved := Save(saves);
    }

    method Mint(key: Id)
      modifies this`keys
      ensures OnDisk() == old(OnDisk()).(keys := old(keys) + {key})
    {
      keys := keys + {key};
    }

    method NewAddress(alias: string, key: Id, saves: bool) returns (reply: Reply)
      modifies this
      ensures Did(Command.NewAddress(alias, key), saves, reply)
      ensures if NamesHandshakeKey(old(net).handshakeKeys, alias)
              then reply == Refused && Now() == old(Now())
              else AddsAddress(old(net), net, alias, key)
                   && (if saves then reply == Created(key) && file == net else reply == Refused && file == old(file))
    {
      if HandshakeByAlias(net, alias).Some? {
        return Refused;
      }
      Mint(key);
      AddressAdded(net, alias, key);
      net := net.(handshakeKeys := net.handshakeKeys + [HandshakeKey(alias, key, false)]);
      MintedFirst(old(OnDisk()), key, SaveWrites(net, saves));
      var saved := Save(saves);
      return if saved then Created(key) else Refused;
    }

    method MakeInvite(alias: string, key: Id, hints: seq<string>, saves: bool) returns (reply: Reply)
      modifies this
      ensures Did(Command.MakeInvite(alias, key, hints), saves, reply)
      ensures if HasAlias(old(net), alias)
              then reply == Refused && Now() == old(Now())
              else GainsPeer(old(net), net) && IsPending(net.peers[|old(net).peers|], alias, key)
                   && (if saves && Valid(ok, net)
                       then reply.Issued? && LeadsTo(reply.invite, old(net), key, hints) && file == net
                       else reply == Refused && file == old(file))
    {
      if PeerByAlias(net, alias).Some? {
        return Refused;
      }
      Mint(key);
      net := net.(peers := net.peers + [Peer(alias, None, key, [], [], [], None)]);
      MintedFirst(old(OnDisk()), key, SaveWrites(net, saves));
      var saved := CheckAndSave(saves);
      return if saved then Issued(Invite(CurrentAddresses(net), net.dns, key, hints)) else Refused;
    }

    method MakeDeviceInvite(name: string, key: Id, hints: seq<string>, saves: bool) returns (reply: Reply)
      modifies this
      ensures Did(Command.MakeDeviceInvite(name, key, hints), saves, reply)
      ensures if HasName(old(net), name)
              then reply == Refused && Now() == old(Now())
              else GainsDevice(old(net), net) && IsPendingDevice(net.devices[|old(net).devices|], name, key)
                   && (if saves && Valid(ok, net)
                       then reply.Issued? && LeadsTo(reply.invite, old(net), key, hints) && file == net
                       else reply == Refused && file == old(file))
    {
      if DeviceByName(net, name).Some? {
        return Refused;
      }
      Mint(key);
      net := net.(devices := net.devices + [Device(name, [], Some(key))]);
      MintedFirst(old(OnDisk()), key, SaveWrites(net, saves));
      var saved := CheckAndSave(saves);
      return if saved then Issued(Invite(CurrentAddresses(net), net.dns, key, hints)) else Refused;
    }

    /** The first locked section of an accept, and the minting after it. It does not write
        the file. */
    method BeginAccept(alias: string, invite: Invite, key: Id, hints: seq<string>) returns (reply: Reply)
      modifies this
      ensures Did(Command.BeginAccept(alias, invite, key, hints), true, reply)
      ensures net == old(net) && file == old(file)
      ensures keys == if HasAlias(net, alias) then old(keys) else old(keys) + {key}
      ensures reply == if HasAlias(net, alias) then Refused
                       else Dialling(Invited(invite.identity, CurrentAddresses(net), net.dns, hints))
    {
      assert HasAlias(net, alias) <==> PeerByAlias(net, alias).Some?;
      if PeerByAlias(net, alias).Some? {
        return Refused;
      }
      Mint(key);
      MintedFirst(old(OnDisk()), key, []);
      return Dialling(Invited(invite.identity, CurrentAddresses(net), net.dns, hints));
    }

    /** The last locked section of an accept: a welcome came back. */
    method CommitAccept(alias: string, invite: Invite, mine: Id, addresses: seq<Id>, dns: seq<string>, saves: bool)
      returns (reply: Reply)
      modifies this
      ensures Did(Command.CommitAccept(alias, invite, mine, addresses, dns), saves, reply)
      ensures GainsPeer(old(net), net) && keys == old(keys)
      ensures IsAccepted(net.peers[|old(net).peers|], alias, invite, mine, addresses, dns)
      ensures if saves && Valid(ok, net)
              then reply == Accepted(alias) && file == net && PeerByAlias(net, alias) == Some(|old(net).peers|)
              else reply == Refused && file == old(file)
    {
      net := net.(peers := net.peers + [Peer(alias, Some(invite.identity), mine, addresses, dns, invite.hints, None)]);
      assert [] + SaveWrites(net, saves) == SaveWrites(net, saves);
      var saved := CheckAndSave(saves);
      if saved {
        OnlyOfItsAlias(ok, net, |old(net).peers|);
      }
      return if saved then Accepted(alias) else Refused;
    }

    /** Notes on which of our addresses a peer arrived. */
    method NoteReachedOn(alias: string, on: string)
      modifies this`net
      ensures net == match PeerByAlias(old(net), alias)
                     case None => old(net)
                     case Some(j) => old(net).(peers := old(net).peers[j := old(net).peers[j].(reachedOn := Some(on))])
    {
      var j := PeerByAlias(net, alias);
      if j.Some? {
        net := net.(peers := net.peers[j.value := net.peers[j.value].(reachedOn := Some(on))]);
      }
    }

    /** A caller greets us on one of our addresses. */
    method Greet(caller: Id, on: string, hello: Hello, saves: bool) returns (reply: Reply)
      modifies this
      ensures Did(Command.Greet(caller, on, hello), saves, reply)
    {
      var known := PeerByKey(net, caller);
      if known.Some? {
        reply := WelcomeBack(caller, on, hello, saves);
        return;
      }
      if !hello.Invited? {
        return Refused;
      }
      var device := PendingDeviceByInvite(net, hello.invitedTo);
      if device.Some? {
        reply := Enrol(caller, on, hello, saves);
        return;
      }
      var pending := PendingByMine(net, hello.invitedTo);
      if pending.None? {
        return Refused;
      }
      reply := Pair(caller, on, hello, saves);
    }

    method WelcomeBack(caller: Id, on: string, hello: Hello, saves: bool) returns (reply: Reply)
      requires Recognise(net, caller, hello).Known?
      modifies this
      ensures Did(Command.Greet(caller, on, hello), saves, reply)
    {
      var alias := net.peers[PeerByKey(net, caller).value].alias;
      UncheckedGreeting(ok, net, caller, on, hello, saves);
      NoteReachedOn(alias, on);
      var saved := Save(saves);
      return if saved then Welcomed(Ok(alias, CurrentAddresses(net), net.dns)) else Refused;
    }

    method Enrol(caller: Id, on: string, hello: Hello, saves: bool) returns (reply: Reply)
      requires Recognise(net, caller, hello).Enrols?
      modifies this
      ensures Did(Command.Greet(caller, on, hello), saves, reply)
    {
      var name := net.devices[PendingDeviceByInvite(net, hello.invitedTo).value].name;
      CheckedGreeting(ok, net, caller, on, hello, saves);
      var j := DeviceByName(net, name).value;
      net := net.(devices := net.devices[j := net.devices[j].(keys := [caller], invite := None)]);
      var saved := CheckAndSave(saves);
      return if saved then Welcomed(Ok(name, CurrentAddresses(net), net.dns)) else Refused;
    }

    method Pair(caller: Id, on: string, hello: Hello, saves: bool) returns (reply: Reply)
      requires Recognise(net, caller, hello).Pairs?
      modifies this
      ensures Did(Command.Greet(caller, on, hello), saves, reply)
    {
      var alias := net.peers[PendingByMine(net, hello.invitedTo).value].alias;
      CheckedGreeting(ok, net, caller, on, hello, saves);
      var j := PeerByAlias(net, alias).value;
      net := net.(peers := net.peers[j := net.peers[j].(
        peer := Some(caller), addresses := hello.addresses, dns := hello.dns,
        hints := hello.hints, reachedOn := Some(on))]);
      var saved := CheckAndSave(saves);
      return if saved then Welcomed(Ok(alias, CurrentAddresses(net), net.dns)) else Refused;
    }

    /** A known device claims its name: it is live, at these hints. */
    method Register(caller: Id, hints: seq<string>) returns (name: Option<string>)
      modifies this`live
      ensures name.Some? <==> DeviceByKey(net, caller).Some?
      ensures name.Some? ==> name.value == net.devices[DeviceByKey(net, caller).value].name
      ensures Now() == AfterRegister(old(Now()), caller, hints)
    {
      var device := DeviceByKey(net, caller);
      if device.None? {
        return None;
      }
      live := live[net.devices[device.value].name := hints];
      return Some(net.devices[device.value].name);
    }

    /** The connection a device registered on has ended. */
    method Depart(name: string)
      modifies this`live
      ensures Now() == AfterDepart(old(Now()), name)
    {
      live := live - {name};
    }

    /** Finds one of our devices for a caller and mints a ticket admitting the caller to it. */
    method Locate(name: string, caller: Id, alias: Option<string>, scheme: T.Scheme, now: nat) returns (say: Say)
      requires now + T.LIFETIME_SECS < T.U64_LIMIT
      ensures say == match Commands.Locate(ok, Now(), name, caller)
                     case None => Denied
                     case Some(found) =>
                       Resolved(found.device, found.hints,
                                T.Mint(scheme, found.issuer, name, caller, alias, now, T.LIFETIME_SECS))
      ensures if Findable(ok, Now(), name, caller)
              then Points(scheme, say, Now(), name, caller, alias, now) else say == Denied
    {
      var i := DeviceByName(net, name);
      if i.None? || net.devices[i.value].keys == [] {
        return Denied;
      }
      var key := net.devices[i.value].keys[0];
      if name !in live {
        return Denied;
      }
      var addresses := CurrentAddresses(net);
      if |addresses| == 0 || addresses[0] !in keys || !ok(caller) {
        return Denied;
      }
      return Resolved(key, live[name], T.Mint(scheme, addresses[0], name, caller, alias, now, T.LIFETIME_SECS));
    }
  }
}
