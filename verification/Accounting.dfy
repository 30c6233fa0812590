/** What whole runs of the merger amount to: how sessions partition the readings, and how many
    notifications they can cause. Stated for runs of the two-table merger, proved through the
    specification it refines. */
module Accounting {
  import opened Dict
  import opened Session
  import opened Sessions

  function ClosedBy(open: Open, e: Event): Open {
    match e case Scan(now, timeout) => Closing(open, now, timeout) case _ => []
  }

  /** The sessions closed during a run, in the order they were closed. */
  function ClosedIn(open: Open, events: seq<Event>): Open
    decreases |events|
  {
    if events == [] then [] else
      ClosedBy(open, events[0]) + ClosedIn(SpecStep(open, events[0]).0, events[1..])
  }

  function ReadingsOf(events: seq<Event>, id: string): History {
    if events == [] then [] else ReadingBy(events[0], id) + ReadingsOf(events[1..], id)
  }

  function ReadingBy(e: Event, id: string): History {
    if e.Reading? && e.id == id then [e.slave] else []
  }

  /** The histories of all sessions of `id`, one after the other. */
  function HistoriesOf(closed: Open, id: string): History {
    if closed == [] then [] else
      var s := closed[|closed| - 1];
      HistoriesOf(closed[..|closed| - 1], id) + if s.id == id then s.history else []
  }

  function Flatten<T>(parts: seq<seq<T>>): seq<T> {
    if parts == [] then [] else parts[0] + Flatten(parts[1..])
  }

  function ReadingCount(events: seq<Event>): nat {
    if events == [] then 0 else (if events[0].Reading? then 1 else 0) + ReadingCount(events[1..])
  }

  /** The readings held in a set of sessions. */
  function Held(open: Open): nat {
    if open == [] then 0 else Held(open[..|open| - 1]) + |open[|open| - 1].history|
  }

  // ----- partition of the readings -----

  lemma {:induction false} HistoriesAppend(a: Open, b: Open, id: string)
    ensures HistoriesOf(a + b, id) == HistoriesOf(a, id) + HistoriesOf(b, id)
  {
    if b == [] {
      assert a + b == a;
    } else {
      assert (a + b)[..|a + b| - 1] == a + b[..|b| - 1];
      HistoriesAppend(a, b[..|b| - 1], id);
    }
  }

  lemma {:induction false} HistoriesSnoc(a: Open, s: OpenSession, id: string)
    ensures HistoriesOf(a + [s], id) == HistoriesOf(a, id) + if s.id == id then s.history else []
  {
    assert (a + [s])[..|a|] == a;
  }

  lemma {:induction false} HistoriesDistinct(open: Open, id: string)
    requires DistinctIds(open)
    ensures HistoriesOf(open, id) == HistoryOf(open, id)
  {
    if IsOpen(open, id) {
      var i :| 0 <= i < |open| && open[i].id == id;
      HistoryAt(open, i);
      HistoriesOfOne(open, i);
    } else {
      NoHistory(open, id);
      HistoriesOfNone(open, id);
    }
  }

  lemma {:induction false} HistoriesOfNone(open: Open, id: string)
    requires !IsOpen(open, id)
    ensures HistoriesOf(open, id) == []
  {
    if open != [] {
      var init := open[..|open| - 1];
      assert forall i :: 0 <= i < |init| ==> init[i] == open[i];
      assert open[|open| - 1].id != id;
      HistoriesOfNone(init, id);
    }
  }

  lemma {:induction false} HistoriesOfOne(open: Open, i: nat)
    requires DistinctIds(open) && i < |open|
    ensures HistoriesOf(open, open[i].id) == open[i].history
  {
    var init, id := open[..|open| - 1], open[i].id;
    if i < |init| {
      HistoriesOfOne(init, i);
    } else {
      assert !IsOpen(init, id);
      HistoriesOfNone(init, id);
    }
  }

  lemma {:induction false} ScanPartitions(open: Open, now: int, timeout: int, id: string)
    requires DistinctIds(open)
    ensures HistoriesOf(open, id)
         == HistoriesOf(Closing(open, now, timeout), id) + HistoriesOf(Survivors(open, now, timeout), id)
  {
    if open != [] {
      var init, s := open[..|open| - 1], open[|open| - 1];
      ScanPartitions(init, now, timeout, id);
      if s.id == id {
        HistoriesOfNone(init, id);
      }
      assert open == init + [s];
      PartitionStep(init, s, Closing(init, now, timeout), Survivors(init, now, timeout), TimedOut(s, now, timeout), id);
    }
  }

  lemma {:induction false} PartitionStep(init: Open, s: OpenSession, closed: Open, left: Open, closes: bool, id: string)
    requires HistoriesOf(init, id) == HistoriesOf(closed, id) + HistoriesOf(left, id)
    requires s.id == id ==> HistoriesOf(init, id) == []
    ensures HistoriesOf(init + [s], id) == HistoriesOf(closed + if closes then [s] else [], id)
                                         + HistoriesOf(left + if closes then [] else [s], id)
  {
    var c, l, h := HistoriesOf(closed, id), HistoriesOf(left, id), if s.id == id then s.history else [];
    assert (c + l) + h == (if closes then c + h else c) + (if closes then l else l + h) by {
      if s.id == id { assert |c| + |l| == |c + l| == 0; }
    }
    HistoriesSnoc(init, s, id);
    if closes {
      HistoriesSnoc(closed, s, id);
      assert left + [] == left;
    } else {
      HistoriesSnoc(left, s, id);
      assert closed + [] == closed;
    }
  }

  lemma {:induction false} NotAfter(open: Open, part: Open, id: string)
    requires !IsOpen(open, id) && forall s :: s in part ==> s in open
    ensures !IsOpen(part, id)
  {
    forall i | 0 <= i < |part| ensures part[i].id != id {
      assert part[i] in open;
    }
  }

  lemma {:induction false} ObserveHistory(open: Open, reader: string, slave: bool, now: int, id: string)
    requires DistinctIds(open)
    ensures HistoryOf(Observe(open, reader, slave, now), id)
         == HistoryOf(open, id) + if reader == id then [slave] else []
  {
    var next := Observe(open, reader, slave, now);
    ObserveDistinct(open, reader, slave, now);
    if IsOpen(open, id) {
      var i :| 0 <= i < |open| && open[i].id == id;
      HistoryAt(open, i);
      HistoryAt(next, if IsOpen(open, reader) then i else i + 1);
    } else {
      NoHistory(open, id);
      if reader == id {
        HistoryAt(next, 0);
      } else {
        assert forall j :: 0 <= j < |open| ==> open[j].id != id;
        assert !IsOpen(next, id);
        NoHistory(next, id);
      }
    }
  }

  lemma {:induction false} StepPartitions(open: Open, e: Event, id: string)
    requires DistinctIds(open)
    ensures DistinctIds(SpecStep(open, e).0)
    ensures HistoryOf(open, id) + ReadingBy(e, id)
         == HistoriesOf(ClosedBy(open, e), id) + HistoryOf(SpecStep(open, e).0, id)
  {
    match e {
      case Reading(reader, slave, now) =>
        ObserveHistory(open, reader, slave, now, id);
        ObserveDistinct(open, reader, slave, now);
      case Scan(now, timeout) =>
        ScanPartitions(open, now, timeout, id);
        ScanSplits(open, now, timeout);
        HistoriesDistinct(open, id);
        HistoriesDistinct(Survivors(open, now, timeout), id);
    }
  }

  lemma {:induction false} Regroup(a: History, r: History, rest: History, c: History, h: History,
                                   more: History, end: History)
    requires a + r == c + h && h + rest == more + end
    ensures a + (r + rest) == (c + more) + end
  {
    assert a + (r + rest) == (a + r) + rest == c + (h + rest);
  }

  /** Every reading of `id` lands in exactly one session, in order: the histories of its closed
      sessions followed by its open one are its readings. */
  lemma {:induction false} SessionsPartitionReadings(open: Open, events: seq<Event>, id: string)
    requires DistinctIds(open)
    ensures HistoryOf(open, id) + ReadingsOf(events, id)
         == HistoriesOf(ClosedIn(open, events), id) + HistoryOf(SpecRun(open, events).0, id)
    decreases |events|
  {
    if events != [] {
      var e, rest, next := events[0], events[1..], SpecStep(open, events[0]).0;
      StepPartitions(open, e, id);
      SessionsPartitionReadings(next, rest, id);
      HistoriesAppend(ClosedBy(open, e), ClosedIn(next, rest), id);
      Regroup(HistoryOf(open, id), ReadingBy(e, id), ReadingsOf(rest, id), HistoriesOf(ClosedBy(open, e), id),
              HistoryOf(next, id), HistoriesOf(ClosedIn(next, rest), id), HistoryOf(SpecRun(next, rest).0, id));
    }
  }

  // ----- notifications -----

  lemma {:induction false} ReportsByAppend(a: Open, b: Open, report: OpenSession -> seq<Notification>)
    ensures ReportsBy(a + b, report) == ReportsBy(a, report) + ReportsBy(b, report)
  {
    if b == [] {
      assert a + b == a;
    } else {
      assert (a + b)[..|a + b| - 1] == a + b[..|b| - 1];
      ReportsByAppend(a, b[..|b| - 1], report);
    }
  }

  lemma {:induction false} ReportsAppend(a: Open, b: Open)
    ensures Reports(a + b) == Reports(a) + Reports(b)
  {
    ReportsByAppend(a, b, ReportOf);
  }

  /** A run's notifications are the reports of its closed sessions: one at most for each. */
  lemma {:induction false} NotificationsAreClosedSessions(open: Open, events: seq<Event>)
    ensures Flatten(SpecRun(open, events).1) == Reports(ClosedIn(open, events))
    decreases |events|
  {
    if events != [] {
      var next := SpecStep(open, events[0]).0;
      NotificationsAreClosedSessions(next, events[1..]);
      ReportsAppend(ClosedBy(open, events[0]), ClosedIn(next, events[1..]));
    }
  }

  lemma {:induction false} ReportsBound(closed: Open)
    ensures |Reports(closed)| <= |closed| && 6 * |Reports(closed)| <= Held(closed)
  {
    if closed != [] { ReportsBound(closed[..|closed| - 1]); }
  }

  lemma {:induction false} HeldAppend(a: Open, b: Open)
    ensures Held(a + b) == Held(a) + Held(b)
  {
    if b == [] {
      assert a + b == a;
    } else {
      assert (a + b)[..|a + b| - 1] == a + b[..|b| - 1];
      HeldAppend(a, b[..|b| - 1]);
    }
  }

  lemma {:induction false} ScanHeld(open: Open, now: int, timeout: int)
    ensures Held(open) == Held(Closing(open, now, timeout)) + Held(Survivors(open, now, timeout))
  {
    if open != [] {
      var init, s := open[..|open| - 1], open[|open| - 1];
      ScanHeld(init, now, timeout);
      HeldOne(s);
      HeldAppend(Closing(init, now, timeout), if TimedOut(s, now, timeout) then [s] else []);
      HeldAppend(Survivors(init, now, timeout), if TimedOut(s, now, timeout) then [] else [s]);
    }
  }

  lemma {:induction false} HeldOne(s: OpenSession)
    ensures Held([s]) == |s.history|
  {
    assert [s][..0] == [];
  }

  lemma {:induction false} HeldUpdate(open: Open, i: nat, s: OpenSession)
    requires i < |open|
    ensures Held(open[i := s]) == Held(open) - |open[i].history| + |s.history|
  {
    var l, r := open[..i], open[i + 1..];
    assert open[i := s] == l + ([s] + r) && open == l + ([open[i]] + r);
    HeldThree(l, s, r);
    HeldThree(l, open[i], r);
  }

  lemma {:induction false} HeldThree(l: Open, s: OpenSession, r: Open)
    ensures Held(l + ([s] + r)) == Held(l) + |s.history| + Held(r)
  {
    HeldAppend(l, [s] + r);
    HeldAppend([s], r);
    HeldOne(s);
  }

  lemma {:induction false} ObserveHeld(open: Open, id: string, slave: bool, now: int)
    requires DistinctIds(open)
    ensures Held(Observe(open, id, slave, now)) == Held(open) + 1
  {
    if IsOpen(open, id) {
      var i :| 0 <= i < |open| && open[i].id == id;
      var s := Extend(open[i], id, slave, now);
      assert Observe(open, id, slave, now) == open[i := s];
      HeldUpdate(open, i, s);
    } else {
      HeldAppend([OpenSession(id, [slave], now)], open);
      HeldOne(OpenSession(id, [slave], now));
    }
  }

  lemma {:induction false} ReadingsAreHeld(open: Open, events: seq<Event>)
    requires DistinctIds(open)
    ensures Held(open) + ReadingCount(events) == Held(ClosedIn(open, events)) + Held(SpecRun(open, events).0)
    decreases |events|
  {
    if events != [] {
      var next := SpecStep(open, events[0]).0;
      match events[0] {
        case Reading(id, slave, now) =>
          ObserveHeld(open, id, slave, now);
          ObserveDistinct(open, id, slave, now);
          assert [] + ClosedIn(next, events[1..]) == ClosedIn(next, events[1..]);
        case Scan(now, timeout) =>
          ScanHeld(open, now, timeout);
          ScanSplits(open, now, timeout);
          HeldAppend(Closing(open, now, timeout), ClosedIn(next, events[1..]));
      }
      ReadingsAreHeld(next, events[1..]);
    }
  }

  /** Rate bound for the merger, started empty: six readings are spent for every notification, on
      top of the readings still held in open sessions; and both tables keep the same keys. */
  lemma {:induction false} MergerRateBound(events: seq<Event>)
    ensures var (t, outs) := MergerRun(Tables([], []), events);
      && 6 * |Flatten(outs)| + Held(SpecRun([], events).0) <= ReadingCount(events)
      && t == Represent(SpecRun([], events).0)
      && Keys(t.students) == Keys(t.timers)
  {
    assert Represent([]) == Tables([], []);
    RunRefines([], events);
    RepresentKeys(SpecRun([], events).0, PackedState);
    NotificationsAreClosedSessions([], events);
    ReportsBound(ClosedIn([], events));
    ReadingsAreHeld([], events);
  }

  // ----- when two readings share a session -----

  ghost predicate QuietFor(events: seq<Event>, id: string) {
    forall i :: 0 <= i < |events| ==> events[i].Reading? ==> events[i].id != id
  }

  /** No scan among `events` finds a session last seen at `lastSeen` timed out. */
  ghost predicate NoScanExpires(events: seq<Event>, lastSeen: int) {
    forall i :: 0 <= i < |events| ==> events[i].Scan? ==> events[i].now - lastSeen < events[i].timeout
  }

  /** While a student is not read, the session survives unchanged exactly as long as no scan finds
      it timed out; otherwise it is closed and the student has no session. */
  lemma {:induction false} SessionSurvives(open: Open, s: OpenSession, events: seq<Event>)
    requires DistinctIds(open) && s in open && QuietFor(events, s.id)
    ensures NoScanExpires(events, s.lastSeen) <==> s in SpecRun(open, events).0
    ensures !NoScanExpires(events, s.lastSeen) ==> !IsOpen(SpecRun(open, events).0, s.id)
    decreases |events|
  {
    if events != [] {
      var e, rest := events[0], events[1..];
      var next := SpecStep(open, e).0;
      assert events == [e] + rest;
      assert QuietFor(rest, s.id) by {
        forall i | 0 <= i < |rest| && rest[i].Reading? ensures rest[i].id != s.id {
          assert rest[i] == events[i + 1];
        }
      }
      StepSurvives(open, s, e);
      QuietSplit(e, rest, s.lastSeen);
      if s in next {
        SessionSurvives(next, s, rest);
      } else {
        StaysClosed(next, rest, s.id);
      }
    }
  }

  lemma {:induction false} QuietSplit(e: Event, rest: seq<Event>, lastSeen: int)
    ensures NoScanExpires([e] + rest, lastSeen) <==> NoScanExpires([e], lastSeen) && NoScanExpires(rest, lastSeen)
  {
    var all := [e] + rest;
    assert all[0] == e && [e][0] == e;
    assert forall i :: 0 <= i < |rest| ==> rest[i] == all[i + 1];
  }

  lemma {:induction false} StepSurvives(open: Open, s: OpenSession, e: Event)
    requires DistinctIds(open) && s in open && (e.Reading? ==> e.id != s.id)
    ensures var next := SpecStep(open, e).0;
      && DistinctIds(next)
      && (NoScanExpires([e], s.lastSeen) <==> s in next)
      && (s !in next ==> !IsOpen(next, s.id))
  {
    assert [e][0] == e;
    match e {
      case Reading(id, slave, now) =>
        ObserveDistinct(open, id, slave, now);
        OthersStay(open, s, id, slave, now);
      case Scan(now, timeout) =>
        ScanSplits(open, now, timeout);
        if TimedOut(s, now, timeout) { EvictedIsGone(open, s, now, timeout); }
    }
  }

  lemma {:induction false} OthersStay(open: Open, s: OpenSession, id: string, slave: bool, now: int)
    requires s in open && id != s.id
    ensures s in Observe(open, id, slave, now)
  {
    var i :| 0 <= i < |open| && open[i] == s;
    assert Observe(open, id, slave, now)[if IsOpen(open, id) then i else i + 1] == s;
  }

  lemma {:induction false} EvictedIsGone(open: Open, s: OpenSession, now: int, timeout: int)
    requires DistinctIds(open) && s in open && TimedOut(s, now, timeout)
    ensures !IsOpen(Survivors(open, now, timeout), s.id)
  {
    ScanSplits(open, now, timeout);
    var i :| 0 <= i < |open| && open[i] == s;
    var left := Survivors(open, now, timeout);
    forall j | 0 <= j < |left| ensures left[j].id != s.id {
      assert left[j] in open;
    }
  }

  lemma {:induction false} StaysClosed(open: Open, events: seq<Event>, id: string)
    requires !IsOpen(open, id) && QuietFor(events, id)
    ensures !IsOpen(SpecRun(open, events).0, id)
    decreases |events|
  {
    if events != [] {
      var next := SpecStep(open, events[0]).0;
      assert QuietFor(events[1..], id) by {
        assert forall i :: 0 <= i < |events| - 1 ==> events[1..][i] == events[i + 1];
      }
      match events[0] {
        case Reading(reader, slave, now) =>
          assert reader != id;
          assert forall j :: 0 <= j < |open| ==> open[j].id != id;
          assert !IsOpen(next, id);
        case Scan(now, timeout) =>
          ScanSplits(open, now, timeout);
          NotAfter(open, next, id);
      }
      StaysClosed(next, events[1..], id);
    }
  }

  /** Readings less than `timeout` apart share a session: with a clock that has not passed `now`,
      the next reading of the student extends the very session `s`. */
  lemma {:induction false} CloseReadingsShareSession(open: Open, s: OpenSession, gap: seq<Event>,
                                                     slave: bool, now: int, timeout: int)
    requires DistinctIds(open) && s in open && QuietFor(gap, s.id)
    requires forall i :: 0 <= i < |gap| ==> gap[i].now <= now && (gap[i].Scan? ==> gap[i].timeout == timeout)
    requires now - s.lastSeen < timeout
    ensures OpenSession(s.id, s.history + [slave], now) in SpecRun(open, gap + [Reading(s.id, slave, now)]).0
  {
    SessionSurvives(open, s, gap);
    EmittedAppend(open, gap, Reading(s.id, slave, now));
    var before := SpecRun(open, gap).0;
    var i :| 0 <= i < |before| && before[i] == s;
    assert IsOpen(before, s.id);
    assert Observe(before, s.id, slave, now)[i] == OpenSession(s.id, s.history + [slave], now);
  }

  /** All notifications of a run of the specification, in order. */
  function Emitted(open: Open, events: seq<Event>): seq<Notification> { Flatten(SpecRun(open, events).1) }

  lemma {:induction false} FlattenSnoc<T>(parts: seq<seq<T>>, last: seq<T>)
    ensures Flatten(parts + [last]) == Flatten(parts) + last
  {
    if parts == [] {
      assert [] + [last] == [last] && [last][1..] == [];
    } else {
      assert (parts + [last])[1..] == parts[1..] + [last];
      FlattenSnoc(parts[1..], last);
    }
  }

  lemma {:induction false} EmittedStep(open: Open, events: seq<Event>)
    requires events != []
    ensures var (next, notes) := SpecStep(open, events[0]);
      && SpecRun(open, events).0 == SpecRun(next, events[1..]).0
      && Emitted(open, events) == notes + Emitted(next, events[1..])
  {
    var (next, notes) := SpecStep(open, events[0]);
    var outs := SpecRun(next, events[1..]).1;
    assert ([notes] + outs)[1..] == outs;
  }

  /** One more event emits its own notifications behind the others. */
  lemma {:induction false} EmittedAppend(open: Open, events: seq<Event>, e: Event)
    ensures var end := SpecRun(open, events).0;
      && SpecRun(open, events + [e]).0 == SpecStep(end, e).0
      && Emitted(open, events + [e]) == Emitted(open, events) + SpecStep(end, e).1
    decreases |events|
  {
    EmittedStep(open, events + [e]);
    if events == [] {
      assert [] + [e] == [e] && [e][1..] == [];
      assert SpecStep(open, e).1 + [] == [] + SpecStep(open, e).1;
    } else {
      assert (events + [e])[1..] == events[1..] + [e];
      EmittedStep(open, events);
      EmittedAppend(SpecStep(open, events[0]).0, events[1..], e);
    }
  }
}
