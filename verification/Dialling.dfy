/** To whom an identity is shown: which daemons are dialled with it, by accepts and for
    `ResolveFor`. One minted to accept a daemon's invite is shown to that daemon alone. One
    minted for an invite is shown to one daemon exactly if only one daemon ever takes it up in
    memory, which is so unless a pairing is lost in a crash before it is written. */
module Dialling {
  import opened Wrappers
  import opened Proto
  import opened Network
  import opened Commands
  import opened World
  import opened Invariant
  import opened Preservation
  import opened Edges
  import opened Restart
  import opened Progress

  // -- in one world ----------------------------------------------------------------------------

  /** Running daemon `b` has an entry under its identity `p` that holds `k`. */
  ghost predicate Counterpart(w: World, b: nat, p: Id, k: Id) {
    b < |w.nodes| && w.nodes[b].up && HasEntry(w.nodes[b].s.net, p, k)
  }

  /** Running daemon `b` can dial `address` as `p`, for an entry that holds `k`. */
  ghost predicate Dials(w: World, b: nat, p: Id, k: Id, address: Id) {
    && b < |w.nodes| && w.nodes[b].up
    && exists i :: 0 <= i < |w.nodes[b].s.net.peers| && w.nodes[b].s.net.peers[i].mine == p
         && w.nodes[b].s.net.peers[i].peer == Some(k) && address in w.nodes[b].s.net.peers[i].addresses
  }

  ghost predicate OfADaemon(roles: Roles, k: Id) {
    k in roles && roles[k].Dialler?
  }

  /** An invite that has not been taken up gives nowhere to dial. */
  lemma PendingDialsNowhere(ok: Id -> bool, w: World, b: nat, i: nat)
    requires Inv(ok, w) && b < |w.nodes| && i < |w.nodes[b].s.net.peers| && w.nodes[b].s.net.peers[i].peer.None?
    ensures w.nodes[b].s.net.peers[i].addresses == []
  {
    assert StateOk(w.roles, w.answered, b, w.nodes[b].s);
    assert EntryOk(w.roles, w.answered, b, w.nodes[b].s.net.peers[i]);
  }

  lemma InvitedEntryDials(ok: Id -> bool, w: World, p: Id, address: Id)
    requires Inv(ok, w) && p in w.roles && w.roles[p].PeerInvite?
    ensures EntryDials(w, address, p) <==> exists k :: Dials(w, w.roles[p].node, p, k, address)
  {
    if EntryDials(w, address, p) {
      var a, i :| 0 <= a < |w.nodes| && w.nodes[a].up && 0 <= i < |w.nodes[a].s.net.peers|
        && w.nodes[a].s.net.peers[i].mine == p && address in w.nodes[a].s.net.peers[i].addresses;
      InvitedEntry(ok, w, a, i);
      assert Dials(w, a, p, w.nodes[a].s.net.peers[i].peer.value, address);
    }
  }

  lemma SentAreDiallers(w: World)
    requires SentOk(w)
    ensures forall m :: m in w.sent ==> m in w.roles && w.roles[m].Dialler?
  {
    forall m | m in w.sent ensures m in w.roles && w.roles[m].Dialler? {
      assert HelloOk(w.roles, w.invites, m, w.sent[m]);
    }
  }

  /** An identity minted for an invite is dialled with exactly where its taken-up entry says. */
  lemma InvitingDials(ok: Id -> bool, w: World, p: Id, address: Id, hello: Hello)
    requires Inv(ok, w) && p in w.roles && w.roles[p].PeerInvite?
    ensures MayDial(w, address, p, hello) <==>
            hello.PeerHello? && exists k :: Dials(w, w.roles[p].node, p, k, address)
  {
    SentAreDiallers(w);
    InvitedEntryDials(ok, w, p, address);
  }

  /** What the entry under an inviting identity says: whose it is, and where the counterpart is. */
  lemma InvitedEntry(ok: Id -> bool, w: World, b: nat, i: nat)
    requires Inv(ok, w) && b < |w.nodes| && i < |w.nodes[b].s.net.peers|
    requires w.nodes[b].s.net.peers[i].mine in w.roles && w.roles[w.nodes[b].s.net.peers[i].mine].PeerInvite?
    ensures
      var e := w.nodes[b].s.net.peers[i];
      && w.roles[e.mine].node == b
      && (e.peer.None? ==> e.addresses == [])
      && (e.peer.Some? ==> TakenUp(w.roles, e))
  {
    assert StateOk(w.roles, w.answered, b, w.nodes[b].s);
    assert EntryOk(w.roles, w.answered, b, w.nodes[b].s.net.peers[i]);
  }

  /** When the counterpart is a daemon's identity, every dial goes to that daemon. */
  lemma DialsItsCounterpart(ok: Id -> bool, w: World, b: nat, p: Id, k: Id, address: Id)
    requires Inv(ok, w) && p in w.roles && w.roles[p].PeerInvite? && Dials(w, b, p, k, address)
    requires OfADaemon(w.roles, k)
    ensures Counterpart(w, b, p, k) && address in w.roles && w.roles[address] == Address(w.roles[k].node)
  {
    var i :| 0 <= i < |w.nodes[b].s.net.peers| && w.nodes[b].s.net.peers[i].mine == p
      && w.nodes[b].s.net.peers[i].peer == Some(k) && address in w.nodes[b].s.net.peers[i].addresses;
    InvitedEntry(ok, w, b, i);
  }

  lemma CounterpartIsDialled(ok: Id -> bool, w: World, b: nat, p: Id, k: Id) returns (address: Id)
    requires Inv(ok, w) && p in w.roles && w.roles[p].PeerInvite? && Counterpart(w, b, p, k) && OfADaemon(w.roles, k)
    ensures Dials(w, b, p, k, address)
  {
    var i :| 0 <= i < |w.nodes[b].s.net.peers| && w.nodes[b].s.net.peers[i].mine == p
      && w.nodes[b].s.net.peers[i].peer == Some(k);
    InvitedEntry(ok, w, b, i);
    address := w.nodes[b].s.net.peers[i].addresses[0];
  }

  /** In one world: whoever dials a daemon with an identity minted to accept a daemon's invite
      dials the inviting daemon; with one minted for an invite, the daemon that took it up. */
  lemma DialsOneDaemon(ok: Id -> bool, w: World, m: Id, address: Id, hello: Hello)
    requires Inv(ok, w) && MayDial(w, address, m, hello) && m in w.roles
    requires address in w.roles && w.roles[address].Address?
    ensures Genuine(w.roles, m) ==>
              Invitation(w.roles, w.roles[m].invitedTo) && w.roles[address].node == w.roles[w.roles[m].invitedTo].node
    ensures w.roles[m].PeerInvite? ==>
              exists k :: Counterpart(w, w.roles[m].node, m, k) &&
                          (OfADaemon(w.roles, k) ==> w.roles[address].node == w.roles[k].node)
  {
    if w.roles[m].PeerInvite? {
      InvitingDials(ok, w, m, address, hello);
      var k :| Dials(w, w.roles[m].node, m, k, address);
      assert Counterpart(w, w.roles[m].node, m, k);
      if OfADaemon(w.roles, k) {
        DialsItsCounterpart(ok, w, w.roles[m].node, m, k, address);
      }
    } else if Genuine(w.roles, m) {
      AcceptingDialsItsInviter(ok, w, m, address, hello);
    }
  }

  // -- identities minted to accept, over a run -----------------------------------------------------

  /** Over a run, and whether or not a crash cuts the greeting short: whoever greets with an
      identity minted to accept a daemon's invite greets that daemon, so no second daemon ever
      sees it. */
  lemma SeenByOneDaemon(ok: Id -> bool, ws: seq<World>, steps: seq<Step>,
                        i: nat, b: nat, make: Command, invite: Invite,
                        j: nat, a: nat, begin: Command, k: nat, n: nat, greet: Command)
    requires IsRun(ok, ws, steps) && i < j < k < |steps|
    requires RanAt(ok, ws, steps, i, b, make, Issued(invite))
    requires begin.BeginAccept? && begin.invite == invite && Attempts(steps, j, a, begin)
    requires greet.Greet? && greet.caller == begin.key && Attempts(steps, k, n, greet)
    ensures n == b
  {
    InviteIsKept(ok, ws, steps, i, b, make, invite, j);
    InviteIsKept(ok, ws, steps, i, b, make, invite, k);
    DiallerIsKept(ok, ws, steps, j, a, begin, k);
    RunsKeepInv(ok, ws, steps, k);
    AttemptIsPermitted(ok, ws, steps, k, n, greet);
    var address := GreetedAtOwnAddress(ok, ws[k], n, greet);
    AcceptingDialsItsInviter(ok, ws[k], greet.caller, address, greet.hello);
  }

  // -- identities minted for an invite, over a run ---------------------------------------------------

  /** In this world `p` can be dialled with at daemon `n`, for a relationship with a daemon. */
  ghost predicate Toward(w: World, b: nat, p: Id, n: nat) {
    exists k, address :: Dials(w, b, p, k, address) && OfADaemon(w.roles, k)
                         && address in w.roles && w.roles[address] == Address(n)
  }

  /** In this world daemon `b` has `p` taken up by an identity of daemon `n`. */
  ghost predicate TakenUpBy(w: World, b: nat, p: Id, n: nat) {
    exists k :: Counterpart(w, b, p, k) && OfADaemon(w.roles, k) && w.roles[k].node == n
  }

  lemma TowardIsTakenUpBy(ok: Id -> bool, w: World, b: nat, p: Id, n: nat)
    requires Inv(ok, w) && p in w.roles && w.roles[p].PeerInvite?
    ensures Toward(w, b, p, n) <==> TakenUpBy(w, b, p, n)
  {
    if Toward(w, b, p, n) {
      var k, address :| Dials(w, b, p, k, address) && OfADaemon(w.roles, k)
                        && address in w.roles && w.roles[address] == Address(n);
      DialsItsCounterpart(ok, w, b, p, k, address);
    }
    if TakenUpBy(w, b, p, n) {
      var k :| Counterpart(w, b, p, k) && OfADaemon(w.roles, k) && w.roles[k].node == n;
      var address := CounterpartIsDialled(ok, w, b, p, k);
      DialsItsCounterpart(ok, w, b, p, k, address);
    }
  }

  ghost predicate DialledTowardOne(ws: seq<World>, from: nat, b: nat, p: Id) {
    forall i, j, n, m ::
      from <= i < |ws| && from <= j < |ws| && Toward(ws[i], b, p, n) && Toward(ws[j], b, p, m) ==> n == m
  }

  ghost predicate TakenUpByOne(ws: seq<World>, from: nat, b: nat, p: Id) {
    forall i, j, n, m ::
      from <= i < |ws| && from <= j < |ws| && TakenUpBy(ws[i], b, p, n) && TakenUpBy(ws[j], b, p, m) ==> n == m
  }

  /** An identity minted for an invite is dialled toward one daemon only, over all of a run,
      exactly if only one daemon's identity ever takes it up in the memory of its daemon. */
  lemma DialledTowardOneIff(ok: Id -> bool, ws: seq<World>, steps: seq<Step>,
                            i: nat, b: nat, make: Command, invite: Invite)
    requires IsRun(ok, ws, steps) && make.MakeInvite? && RanAt(ok, ws, steps, i, b, make, Issued(invite))
    ensures DialledTowardOne(ws, i + 1, b, invite.identity) <==> TakenUpByOne(ws, i + 1, b, invite.identity)
  {
    forall k, n | i + 1 <= k < |ws|
      ensures Toward(ws[k], b, invite.identity, n) <==> TakenUpBy(ws[k], b, invite.identity, n)
    {
      InviteIsKept(ok, ws, steps, i, b, make, invite, k);
      RunsKeepInv(ok, ws, steps, k);
      TowardIsTakenUpBy(ok, ws[k], b, invite.identity, n);
    }
  }

  /** What daemon `b` has, or will have when it starts, under its identity `p`. */
  ghost predicate Has(w: World, b: nat, p: Id, k: Id) {
    b < |w.nodes| && HasEntry(if w.nodes[b].up then w.nodes[b].s.net else w.nodes[b].s.store.file, p, k)
  }

  /** Step `i` stops `b` while only its memory knows that `k` took `p` up. */
  ghost predicate Loses(ws: seq<World>, steps: seq<Step>, i: nat, b: nat, p: Id, k: Id)
    requires |ws| == |steps| + 1 && i < |steps|
  {
    && (steps[i].Crash? || steps[i].CrashDuring?) && steps[i].n == b && b < |ws[i + 1].nodes|
    && Counterpart(ws[i], b, p, k) && !HasEntry(ws[i + 1].nodes[b].s.store.file, p, k)
  }

  lemma StepKeepsEntry(ok: Id -> bool, ws: seq<World>, steps: seq<Step>, i: nat, b: nat, p: Id, k: Id)
    requires IsRun(ok, ws, steps) && i < |steps| && Has(ws[i], b, p, k) && !Loses(ws, steps, i, b, p, k)
    ensures Has(ws[i + 1], b, p, k)
  {
    WorldGrows(ok, ws, steps, i, b);
    StepOf(ok, ws, steps, i);
    var n, n' := ws[i].nodes[b], ws[i + 1].nodes[b];
    if Alive(steps[i], b) {
      StaysUp(ok, ws[i], ws[i + 1], steps[i], b);
      EntryStays(if n.up then n.s.net else n.s.store.file, if n.up then n'.s.net else n'.s.store.file, p, k);
    } else {
      StopOrStart(ok, ws[i], ws[i + 1], steps[i], b);
      if n.up {
        assert Counterpart(ws[i], b, p, k);
      } else {
        EntryStays(n.s.store.file, n'.s.store.file, p, k);
      }
    }
  }

  lemma EntryIsKept(ok: Id -> bool, ws: seq<World>, steps: seq<Step>, i: nat, j: nat, b: nat, p: Id, k: Id)
    requires IsRun(ok, ws, steps) && i <= j < |ws| && Has(ws[i], b, p, k)
    requires forall x :: i <= x < j ==> !Loses(ws, steps, x, b, p, k)
    ensures Has(ws[j], b, p, k)
    decreases j
  {
    if i < j {
      EntryIsKept(ok, ws, steps, i, j - 1, b, p, k);
      StepKeepsEntry(ok, ws, steps, j - 1, b, p, k);
    }
  }

  lemma OneInMemory(ok: Id -> bool, ws: seq<World>, steps: seq<Step>, j: nat, b: nat, p: Id, k: Id, k': Id)
    requires IsRun(ok, ws, steps) && j < |ws| && Has(ws[j], b, p, k) && Counterpart(ws[j], b, p, k')
    ensures k == k'
  {
    RunsKeepInv(ok, ws, steps, j);
    assert StateOk(ws[j].roles, ws[j].answered, b, ws[j].nodes[b].s);
    OneCounterpartPerIdentity(ws[j].nodes[b].s.net, p, k, k');
  }

  /** Two counterparts under one identity mean that the first was lost in between: a step
      stopped the daemon while its memory had it and its file did not. */
  lemma TwoCounterpartsMeanALoss(ok: Id -> bool, ws: seq<World>, steps: seq<Step>,
                                 i: nat, j: nat, b: nat, p: Id, k: Id, k': Id)
    requires IsRun(ok, ws, steps) && i <= j < |ws|
    requires Counterpart(ws[i], b, p, k) && Counterpart(ws[j], b, p, k') && k != k'
    ensures exists x :: i <= x < j && Loses(ws, steps, x, b, p, k)
  {
    if forall x :: i <= x < j ==> !Loses(ws, steps, x, b, p, k) {
      EntryIsKept(ok, ws, steps, i, j, b, p, k);
      OneInMemory(ok, ws, steps, j, b, p, k, k');
      assert false;
    }
  }

  /** After world `from`: whenever daemon `b` is stopped with a pairing under `p` that only its
      memory has, and that pairing was with a daemon, no other daemon ever takes `p` up. */
  ghost predicate NothingLostToAnother(ws: seq<World>, steps: seq<Step>, from: nat, b: nat, p: Id)
    requires |ws| == |steps| + 1
  {
    forall x, y, k, m ::
      from <= x < y < |ws| && Loses(ws, steps, x, b, p, k) && OfADaemon(ws[x].roles, k) && TakenUpBy(ws[y], b, p, m) ==>
        ws[x].roles[k].node == m
  }

  /** The exact condition. Over a run, an identity minted for an invite is dialled toward one
      daemon only if, and only if, no pairing with one daemon is lost in a crash before it was
      written and then another daemon takes the invite up. */
  lemma DialledTowardOneUnlessLost(ok: Id -> bool, ws: seq<World>, steps: seq<Step>,
                                   i: nat, b: nat, make: Command, invite: Invite)
    requires IsRun(ok, ws, steps) && make.MakeInvite? && RanAt(ok, ws, steps, i, b, make, Issued(invite))
    ensures DialledTowardOne(ws, i + 1, b, invite.identity) <==>
            NothingLostToAnother(ws, steps, i + 1, b, invite.identity)
  {
    DialledTowardOneIff(ok, ws, steps, i, b, make, invite);
    TakenUpByOneUnlessLost(ok, ws, steps, i + 1, b, invite.identity);
  }

  lemma TakenUpByOneUnlessLost(ok: Id -> bool, ws: seq<World>, steps: seq<Step>, from: nat, b: nat, p: Id)
    requires IsRun(ok, ws, steps)
    ensures TakenUpByOne(ws, from, b, p) <==> NothingLostToAnother(ws, steps, from, b, p)
  {
    if TakenUpByOne(ws, from, b, p) {
      forall x, y, k, m | from <= x < y < |ws| && Loses(ws, steps, x, b, p, k) && OfADaemon(ws[x].roles, k)
                          && TakenUpBy(ws[y], b, p, m)
        ensures ws[x].roles[k].node == m
      {
        assert TakenUpBy(ws[x], b, p, ws[x].roles[k].node);
      }
    }
    if NothingLostToAnother(ws, steps, from, b, p) {
      forall x, y, n, m | from <= x <= y < |ws| && TakenUpBy(ws[x], b, p, n) && TakenUpBy(ws[y], b, p, m)
        ensures n == m
      {
        SameTaker(ok, ws, steps, from, x, y, b, p, n, m);
      }
    }
  }

  lemma SameTaker(ok: Id -> bool, ws: seq<World>, steps: seq<Step>, from: nat, x: nat, y: nat,
                  b: nat, p: Id, n: nat, m: nat)
    requires IsRun(ok, ws, steps) && from <= x <= y < |ws| && NothingLostToAnother(ws, steps, from, b, p)
    requires TakenUpBy(ws[x], b, p, n) && TakenUpBy(ws[y], b, p, m)
    ensures n == m
  {
    var k :| Counterpart(ws[x], b, p, k) && OfADaemon(ws[x].roles, k) && ws[x].roles[k].node == n;
    var k' :| Counterpart(ws[y], b, p, k') && OfADaemon(ws[y].roles, k') && ws[y].roles[k'].node == m;
    if k == k' {
      RunsGoOn(ok, ws, steps, x, y);
    } else {
      TwoCounterpartsMeanALoss(ok, ws, steps, x, y, b, p, k, k');
      var z :| x <= z < y && Loses(ws, steps, z, b, p, k);
      RunsGoOn(ok, ws, steps, x, z);
    }
  }

  /** When it is dialled toward one daemon only, no second daemon ever sees it: all who are
      greeted with it, whether or not a crash cuts the greeting short, by an entry that holds a
      daemon's identity, are one daemon. */
  lemma InvitingSeenByOneDaemon(ok: Id -> bool, ws: seq<World>, steps: seq<Step>,
                                i: nat, b: nat, make: Command, invite: Invite,
                                j: nat, n: nat, g: Command, k: nat, m: nat, h: Command)
    requires IsRun(ok, ws, steps) && make.MakeInvite? && RanAt(ok, ws, steps, i, b, make, Issued(invite))
    requires i < j && i < k && Attempts(steps, j, n, g) && Attempts(steps, k, m, h)
    requires g.Greet? && h.Greet? && g.caller == invite.identity == h.caller
    requires forall x :: Counterpart(ws[j], b, invite.identity, x) ==> OfADaemon(ws[j].roles, x)
    requires forall x :: Counterpart(ws[k], b, invite.identity, x) ==> OfADaemon(ws[k].roles, x)
    requires DialledTowardOne(ws, i + 1, b, invite.identity)
    ensures n == m
  {
    GreetsToward(ok, ws, steps, i, b, make, invite, j, n, g);
    GreetsToward(ok, ws, steps, i, b, make, invite, k, m, h);
  }

  lemma GreetsToward(ok: Id -> bool, ws: seq<World>, steps: seq<Step>, i: nat, b: nat, make: Command, invite: Invite,
                     j: nat, n: nat, g: Command)
    requires IsRun(ok, ws, steps) && make.MakeInvite? && RanAt(ok, ws, steps, i, b, make, Issued(invite))
    requires i < j && Attempts(steps, j, n, g) && g.Greet? && g.caller == invite.identity
    requires forall x :: Counterpart(ws[j], b, invite.identity, x) ==> OfADaemon(ws[j].roles, x)
    ensures Toward(ws[j], b, invite.identity, n)
  {
    InviteIsKept(ok, ws, steps, i, b, make, invite, j);
    RunsKeepInv(ok, ws, steps, j);
    AttemptIsPermitted(ok, ws, steps, j, n, g);
    var address := GreetedAtOwnAddress(ok, ws[j], n, g);
    InvitingDials(ok, ws[j], g.caller, address, g.hello);
    var k :| Dials(ws[j], b, g.caller, k, address);
    assert Counterpart(ws[j], b, g.caller, k);
  }

  // -- a loss, and what comes of it --------------------------------------------------------------------

  /** The accept of the invite by daemon `a` under identity `k` has set out with `hello`, and
      daemon `b` has not heard of it. */
  ghost predicate Knocking(w: World, a: nat, b: nat, invite: Invite, k: Id, hello: Hello) {
    && b < |w.nodes| && PeerByKey(w.nodes[b].s.net, k).None?
    && k in w.sent && w.sent[k].node == a && w.sent[k].invite == invite && w.sent[k].hello == hello
  }

  /** Taking up an invite puts the caller into memory whether or not the file can be written. */
  lemma TakenUpInMemory(ok: Id -> bool, w: World, a: nat, b: nat, invite: Invite, k: Id, hello: Hello,
                        on: string, address: Id, saves: bool)
    requires Inv(ok, w) && ValidInv(ok, w) && Outstanding(w, b, invite, on, address)
    requires Knocking(w, a, b, invite, k, hello)
    ensures
      var w1 := Ran(ok, w, b, Greet(k, on, hello), saves);
      && Permitted(ok, w, b, Greet(k, on, hello)) && Inv(ok, w1) && ValidInv(ok, w1)
      && w1.sent == w.sent && w1.invites == w.invites && (!saves ==> w1.answered == w.answered)
      && |w1.nodes| == |w.nodes| && w1.nodes[b].up
      && (!saves ==> w1.nodes[b].s.store.file == w.nodes[b].s.store.file)
      && Toward(w1, b, invite.identity, a)
  {
    var s := w.nodes[b].s;
    var greet := Greet(k, on, hello);
    assert Sound(s.net) by {
      assert StateOk(w.roles, w.answered, b, s);
    }
    Knocks(ok, w, a, b, w.sent[k].alias, invite, k, hello, on, address);
    RunKeepsInv(ok, w, b, greet, saves);
    RunStaysValid(ok, w, b, greet, saves);
    var o := Execute(ok, s.net, greet, saves);
    RepliesFit(ok, s.net, greet, saves);
    PairingArrives(ok, s.net, k, on, hello, saves);
    PairingLeaves(w, b, greet, o, saves);
    var w1 := Ran(ok, w, b, greet, saves);
    PendingIdentity(ok, w, b, invite);
    RolesOnlyGrow(ok, w, b, greet);
    assert HelloOk(w.roles, w.invites, k, w.sent[k]);
    assert Counterpart(w1, b, invite.identity, k) && OfADaemon(w1.roles, k) && w1.roles[k].node == a;
    TowardIsTakenUpBy(ok, w1, b, invite.identity, a);
  }

  lemma PairingLeaves(w: World, b: nat, greet: Command, o: Outcome, saves: bool)
    requires b < |w.nodes| && greet.Greet? && greet.hello.Invited? && ReplyFits(w.nodes[b].s.net, greet, o)
    requires HasEntry(o.net, greet.hello.invitedTo, greet.caller) && o.writes == SaveWrites(o.net, saves)
    requires (o.reply.Welcomed? <==> saves) && (o.reply.Refused? <==> !saves)
    ensures
      var w1 := Resulting(w, b, greet, o, ApplyAll(w.nodes[b].s.store, o.writes));
      && w1.sent == w.sent && w1.invites == w.invites && (!saves ==> w1.answered == w.answered)
      && w1.roles == RolesAfter(w, b, greet)
      && |w1.nodes| == |w.nodes| && w1.nodes[b].up
      && (!saves ==> w1.nodes[b].s.store.file == w.nodes[b].s.store.file)
      && HasEntry(w1.nodes[b].s.net, greet.hello.invitedTo, greet.caller)
  {
    var store := ApplyAll(w.nodes[b].s.store, o.writes);
    if !saves {
      StoppedSave(w.nodes[b].s.store, o.net, false, 1);
      assert SaveWrites(o.net, false)[..1] == SaveWrites(o.net, false);
    }
    ResultNodes(w, b, greet, o, store);
    ResultSent(w, b, greet, o, store);
  }

  lemma PairingArrives(ok: Id -> bool, net: Network, caller: Id, on: string, hello: Hello, saves: bool)
    requires Valid(ok, net) && Sound(net) && Recognise(net, caller, hello).Pairs?
    requires Acceptable(ok, net, Greet(caller, on, hello))
    ensures
      var o := Execute(ok, net, Greet(caller, on, hello), saves);
      && HasEntry(o.net, hello.invitedTo, caller) && o.writes == SaveWrites(o.net, saves)
      && (o.reply.Welcomed? <==> saves) && (o.reply.Refused? <==> !saves)
  {
    CommandValidIff(ok, net, Greet(caller, on, hello), saves);
    GreetingTouchesOneEntry(net, caller, on, hello);
    var net' := Greeted(net, caller, on, hello);
    var i := Recognise(net, caller, hello).index;
    assert net'.peers[i].mine == hello.invitedTo && net'.peers[i].peer == Some(caller);
    assert [] + SaveWrites(net', saves) == SaveWrites(net', saves);
  }

  lemma StartsFromFile(ok: Id -> bool, w: World, b: nat)
    requires Inv(ok, w) && ValidInv(ok, w) && b < |w.nodes|
    ensures Starts(ok, w.nodes[b].s.store)
  {
    assert StateOk(w.roles, w.answered, b, w.nodes[b].s);
  }

  /** `w` with daemon `b` stopped and started again. */
  ghost function Restarted(w: World, b: nat): World
    requires b < |w.nodes|
  {
    var w1 := Down(w, b, w.nodes[b].s.store);
    w1.(nodes := w1.nodes[b := Node(true, Started(w.nodes[b].s.store))])
  }

  lemma RestartIsTwoSteps(ok: Id -> bool, w: World, b: nat)
    requires Inv(ok, w) && ValidInv(ok, w) && b < |w.nodes|
    ensures
      var w1 := Down(w, b, w.nodes[b].s.store);
      && NextBy(ok, w, w1, Step.Crash(b)) && NextBy(ok, w1, Restarted(w, b), Step.Restart(b))
      && Inv(ok, Restarted(w, b)) && ValidInv(ok, Restarted(w, b))
  {
    var w1 := Down(w, b, w.nodes[b].s.store);
    StartsFromFile(ok, w, b);
    StepKeepsInv(ok, w, w1, Step.Crash(b));
    StepStaysValid(ok, w, w1, Step.Crash(b));
    StepKeepsInv(ok, w1, Restarted(w, b), Step.Restart(b));
    StepStaysValid(ok, w1, Restarted(w, b), Step.Restart(b));
  }

  /** The loss. Two daemons have set out to accept one invite. The first is heard while the
      inviter cannot write its file: it is refused, but the inviter can dial it as the invite's
      identity from then on. The inviter crashes and starts; its file never knew. The second is
      heard, and the inviter can dial that one with the same identity. */
  lemma LostPairingDialsTwo(ok: Id -> bool, w: World, b: nat, invite: Invite, on: string, address: Id,
                            a1: nat, k1: Id, h1: Hello, a2: nat, k2: Id, h2: Hello)
    requires Inv(ok, w) && ValidInv(ok, w) && Outstanding(w, b, invite, on, address)
    requires Outstanding(Restarted(w, b), b, invite, on, address)
    requires Knocking(w, a1, b, invite, k1, h1) && Knocking(Restarted(w, b), a2, b, invite, k2, h2)
    ensures
      var w1 := Ran(ok, w, b, Greet(k1, on, h1), false);
      var w2 := Down(w1, b, w1.nodes[b].s.store);
      var w3 := Restarted(w1, b);
      var w4 := Ran(ok, w3, b, Greet(k2, on, h2), true);
      && NextBy(ok, w, w1, Run(b, Greet(k1, on, h1), false)) && w1.answered == w.answered
      && Toward(w1, b, invite.identity, a1)
      && NextBy(ok, w1, w2, Step.Crash(b)) && NextBy(ok, w2, w3, Step.Restart(b))
      && NextBy(ok, w3, w4, Run(b, Greet(k2, on, h2), true)) && Toward(w4, b, invite.identity, a2)
  {
    TakenUpInMemory(ok, w, a1, b, invite, k1, h1, on, address, false);
    var w1 := Ran(ok, w, b, Greet(k1, on, h1), false);
    RestartIsTwoSteps(ok, w1, b);
    assert Outstanding(Restarted(w1, b), b, invite, on, address);
    assert Knocking(Restarted(w1, b), a2, b, invite, k2, h2);
    TakenUpInMemory(ok, Restarted(w1, b), a2, b, invite, k2, h2, on, address, true);
  }
}
