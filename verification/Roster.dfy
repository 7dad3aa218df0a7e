/** The roster of live devices against the connections that are really open. */
module Roster {
  import opened Wrappers

  /** A device's registration on connection `conn`, and that connection's end. */
  datatype Event =
    | Registered(conn: nat, name: string, hints: seq<string>)
    | Departed(conn: nat, name: string)

  /** The roster: registering overwrites the name's entry, departing removes it. */
  function LiveAfter(events: seq<Event>): map<string, seq<string>> {
    if events == [] then map[]
    else
      var live := LiveAfter(events[..|events| - 1]);
      match events[|events| - 1]
      case Registered(_, name, hints) => live[name := hints]
      case Departed(_, name) => live - {name}
  }

  /** The registrations whose connection is open. */
  function OpenAfter(events: seq<Event>): map<nat, string> {
    if events == [] then map[]
    else
      var open := OpenAfter(events[..|events| - 1]);
      match events[|events| - 1]
      case Registered(conn, name, _) => open[conn := name]
      case Departed(conn, _) => open - {conn}
  }

  /** Connections are new when they register, and end once, under the name they gave. */
  ghost predicate WellFormed(events: seq<Event>) {
    events == [] ||
    (var before := events[..|events| - 1];
     WellFormed(before) &&
     match events[|events| - 1]
     case Registered(conn, _, _) => Unseen(before, conn)
     case Departed(conn, name) => conn in OpenAfter(before) && OpenAfter(before)[conn] == name)
  }

  /** The last thing that happened to a name. */
  function LastOf(events: seq<Event>, name: string): (last: Option<Event>)
    ensures last.Some? ==> last.value in events && last.value.name == name
  {
    if events == [] then None
    else if events[|events| - 1].name == name then Some(events[|events| - 1])
    else LastOf(events[..|events| - 1], name)
  }

  ghost predicate IsOpen(events: seq<Event>, name: string) {
    exists conn :: conn in OpenAfter(events) && OpenAfter(events)[conn] == name
  }

  /** A name is in the roster exactly if the last thing that happened to it is a registration,
      with the hints of that registration, whose connection is open. */
  lemma {:induction false} LiveIsLastRegistered(events: seq<Event>, name: string)
    requires WellFormed(events)
    ensures name in LiveAfter(events) <==> LastOf(events, name).Some? && LastOf(events, name).value.Registered?
    ensures name in LiveAfter(events) ==>
              var e := LastOf(events, name).value;
              LiveAfter(events)[name] == e.hints && e.conn in OpenAfter(events) && OpenAfter(events)[e.conn] == name
  {
    if events != [] {
      var before, last := events[..|events| - 1], events[|events| - 1];
      LiveIsLastRegistered(before, name);
    }
  }

  // -- when the roster is right ----------------------------------------------------------------

  /** The roster is the names with an open registration. */
  ghost predicate Agrees(events: seq<Event>) {
    forall name :: name in LiveAfter(events) <==> IsOpen(events, name)
  }

  ghost predicate AgreesThroughout(events: seq<Event>) {
    Agrees(events) && (events == [] || AgreesThroughout(events[..|events| - 1]))
  }

  /** Whenever a registration of a name ends, no other registration of it is open. */
  ghost predicate NoneLeftOpen(events: seq<Event>) {
    events == [] ||
    (var last := events[|events| - 1];
     NoneLeftOpen(events[..|events| - 1]) && (last.Departed? ==> !IsOpen(events, last.name)))
  }

  lemma AfterOne(before: seq<Event>, last: Event)
    ensures LiveAfter(before + [last]) ==
            if last.Registered? then LiveAfter(before)[last.name := last.hints] else LiveAfter(before) - {last.name}
    ensures OpenAfter(before + [last]) ==
            if last.Registered? then OpenAfter(before)[last.conn := last.name] else OpenAfter(before) - {last.conn}
    ensures WellFormed(before + [last]) <==>
            WellFormed(before) &&
            if last.Registered? then Unseen(before, last.conn)
            else last.conn in OpenAfter(before) && OpenAfter(before)[last.conn] == last.name
    ensures NeverOverlaps(before + [last]) <==>
            NeverOverlaps(before) && (last.Registered? ==> !IsOpen(before, last.name))
  {
    var events := before + [last];
    assert events[..|events| - 1] == before && events[|events| - 1] == last;
  }

  ghost predicate Unseen(events: seq<Event>, conn: nat) {
    forall e :: e in events ==> e.conn != conn
  }

  /** What one more event does to which names are open. */
  lemma OpenAfterOne(before: seq<Event>, last: Event, name: string)
    requires WellFormed(before + [last])
    ensures last.name != name ==> (IsOpen(before + [last], name) <==> IsOpen(before, name))
    ensures last.Registered? ==> IsOpen(before + [last], last.name)
  {
    var events := before + [last];
    assert events[..|events| - 1] == before && events[|events| - 1] == last;
    if last.Registered? {
      assert OpenAfter(events)[last.conn] == last.name;
      if last.conn in OpenAfter(before) {
        OpenWasSeen(before, last.conn);
      }
    }
    if last.name != name {
      OtherNamesStay(before, last, name);
    }
  }

  lemma OtherNamesStay(before: seq<Event>, last: Event, name: string)
    requires WellFormed(before + [last]) && last.name != name
    requires last.Registered? ==> last.conn !in OpenAfter(before)
    ensures IsOpen(before + [last], name) <==> IsOpen(before, name)
  {
    var events := before + [last];
    assert events[..|events| - 1] == before && events[|events| - 1] == last;
    if IsOpen(before, name) {
      var c :| c in OpenAfter(before) && OpenAfter(before)[c] == name;
      assert c in OpenAfter(events) && OpenAfter(events)[c] == name;
    }
    if IsOpen(events, name) {
      var c :| c in OpenAfter(events) && OpenAfter(events)[c] == name;
      assert c in OpenAfter(before) && OpenAfter(before)[c] == name;
    }
  }

  lemma LiveAfterOne(before: seq<Event>, last: Event, name: string)
    ensures name in LiveAfter(before + [last]) <==>
            if last.name == name then last.Registered? else name in LiveAfter(before)
  {
    var events := before + [last];
    assert events[..|events| - 1] == before && events[|events| - 1] == last;
  }

  /** From a roster that is right, one event leaves it right exactly unless it ends one
      registration of a name while another is open. */
  lemma OneEventAgreesIff(before: seq<Event>, last: Event)
    requires WellFormed(before + [last]) && Agrees(before)
    ensures Agrees(before + [last]) <==> (last.Departed? ==> !IsOpen(before + [last], last.name))
  {
    forall name
      ensures name != last.name ==> (name in LiveAfter(before + [last]) <==> IsOpen(before + [last], name))
    {
      LiveAfterOne(before, last, name);
      OpenAfterOne(before, last, name);
    }
    LiveAfterOne(before, last, last.name);
    OpenAfterOne(before, last, last.name);
  }

  /** The roster is right all along exactly if no registration of a name ends while another is
      open. */
  lemma {:induction false} AgreesThroughoutIff(events: seq<Event>)
    requires WellFormed(events)
    ensures AgreesThroughout(events) <==> NoneLeftOpen(events)
  {
    if events != [] {
      var before, last := events[..|events| - 1], events[|events| - 1];
      assert events == before + [last];
      AgreesThroughoutIff(before);
      if AgreesThroughout(before) {
        if before == [] {
          assert Agrees(before);
        }
        OneEventAgreesIff(before, last);
      }
    }
  }

  lemma {:induction false} OpenWasSeen(events: seq<Event>, conn: nat)
    requires conn in OpenAfter(events)
    ensures exists e :: e in events && e.conn == conn
  {
    var before, last := events[..|events| - 1], events[|events| - 1];
    assert last in events;
    if last.conn != conn {
      OpenWasSeen(before, conn);
      var e :| e in before && e.conn == conn;
      assert e in events;
    }
  }

  /** No name is registered while a registration of it is open. */
  ghost predicate NeverOverlaps(events: seq<Event>) {
    events == [] ||
    (var before := events[..|events| - 1];
     NeverOverlaps(before) && (events[|events| - 1].Registered? ==> !IsOpen(before, events[|events| - 1].name)))
  }

  ghost predicate OneEach(events: seq<Event>) {
    forall c, d :: c in OpenAfter(events) && d in OpenAfter(events) && OpenAfter(events)[c] == OpenAfter(events)[d] ==>
      c == d
  }

  lemma {:induction false} OneOpenEach(events: seq<Event>)
    requires WellFormed(events) && NeverOverlaps(events)
    ensures OneEach(events)
  {
    if events != [] {
      OneOpenEach(events[..|events| - 1]);
    }
  }

  lemma {:induction false} NothingOverlapsNothingLeft(events: seq<Event>)
    requires WellFormed(events) && NeverOverlaps(events)
    ensures NoneLeftOpen(events)
  {
    if events != [] {
      var before, last := events[..|events| - 1], events[|events| - 1];
      NothingOverlapsNothingLeft(before);
      OneOpenEach(before);
      if last.Departed? {
        forall c | c in OpenAfter(events) ensures OpenAfter(events)[c] != last.name {
          assert c in OpenAfter(before) && c != last.conn;
        }
      }
    }
  }

  /** When registrations of a name never overlap, the roster is exactly the names with an
      open registered connection. */
  lemma LiveIsOpen(events: seq<Event>, name: string)
    requires WellFormed(events) && NeverOverlaps(events)
    ensures name in LiveAfter(events) <==> IsOpen(events, name)
  {
    NothingOverlapsNothingLeft(events);
    AgreesThroughoutIff(events);
    assert Agrees(events);
  }

  /** They do overlap: an ask registers the name over the registration that holds it, saying it
      listens nowhere, and when the ask ends the name is gone although the registration is still
      open. If instead the registration ends first, it takes the name from under the ask. */
  lemma OverlapLosesTheDevice(name: string, hints: seq<string>, ends: nat)
    requires ends < 2
    ensures
      var events := [Registered(0, name, hints), Registered(1, name, []), Departed(ends, name)];
      && WellFormed(events) && IsOpen(events, name) && name !in LiveAfter(events)
      && name in LiveAfter(events[..2]) && LiveAfter(events[..2])[name] == []
  {
    var held, ask, end := Registered(0, name, hints), Registered(1, name, []), Departed(ends, name);
    var events := [held, ask, end];
    assert [] + [held] == [held] && [held] + [ask] == [held, ask] == events[..2] && [held, ask] + [end] == events;
    AfterOne([], held);
    AfterOne([held], ask);
    AfterOne([held, ask], end);
    assert OpenAfter(events)[1 - ends] == name;
  }
}
