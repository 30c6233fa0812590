/** Exactly when interleaved runs are runs of the atomic merger.

    A reading completes when its timer is set, a scan when it gives the lock back; in that order they
    are the events of the atomic merger. The only thing that breaks this order is the removal of a
    student while a reading of the same student is under way. Runs without such a removal agree with
    the atomic merger at every quiet point; a run with one disagrees at the next quiet point. */
module Atomicity {
  import opened Dict
  import opened Session
  import opened Sessions
  import opened Accounting
  import opened FineGrained
  import opened Interleaved

  /** The removal of a student while a reading of that student is under way. */
  predicate Interferes(w: World, step: Step) {
    step.Drop? && !w.server.Waiting? && w.server.id == Picked(w)
  }

  // ----- what a run completes -----

  /** What a step completes: a reading when its timer is set, a scan when the lock is given back. */
  function Completes(w: World, step: Step): seq<Event> {
    match step
    case Arm(now) => if w.server.Stored? then [Reading(w.server.id, w.server.slave, now)] else []
    case End => if w.scanner.Resting? then [] else [Scan(w.scanner.now, w.scanner.timeout)]
    case _ => []
  }

  /** The readings and scans a run completes, in order. */
  function EventsOf(w: World, steps: seq<Step>): seq<Event>
    decreases |steps|
  {
    if steps == [] || !Enabled(w, steps[0]) then [] else
      Completes(w, steps[0]) + EventsOf(Next(w, steps[0]), steps[1..])
  }

  function AfterEvent(w: World, e: Event): World {
    match e
    case Reading(id, slave, now) => AfterReading(w, id, slave, now)
    case Scan(now, timeout) => AfterScan(w, now, timeout)
  }

  function AfterEvents(w: World, events: seq<Event>): World
    decreases |events|
  {
    if events == [] then w else AfterEvents(AfterEvent(w, events[0]), events[1..])
  }

  lemma {:induction false} AfterEventIsStep(w: World, e: Event)
    requires Quiet(w)
    ensures var (t, out) := MergerStep(Tables(w.students, w.timers), e);
      AfterEvent(w, e) == World(t.students, t.timers, Waiting, Resting, w.notes + out)
  {
    assert w.notes + [] == w.notes;
  }

  lemma {:induction false} AfterEventsIsRun(w: World, events: seq<Event>)
    requires Quiet(w)
    ensures var (t, outs) := MergerRun(Tables(w.students, w.timers), events);
      AfterEvents(w, events) == World(t.students, t.timers, Waiting, Resting, w.notes + Flatten(outs))
    decreases |events|
  {
    if events == [] {
      assert w.notes + [] == w.notes;
    } else {
      var next := AfterEvent(w, events[0]);
      var (t, out) := MergerStep(Tables(w.students, w.timers), events[0]);
      AfterEventIsStep(w, events[0]);
      AfterEventsIsRun(next, events[1..]);
      MoreNotes(w.notes, out, MergerRun(t, events[1..]).1);
    }
  }

  lemma {:induction false} MoreNotes(notes: seq<Notification>, out: seq<Notification>, outs: seq<seq<Notification>>)
    ensures (notes + out) + Flatten(outs) == notes + Flatten([out] + outs)
  {
    assert ([out] + outs)[1..] == outs;
  }

  /** At every quiet point of the run the world is what the atomic merger makes of `u` with the
      events completed up to there. */
  ghost predicate AlwaysAtomic(u: World, w: World, steps: seq<Step>)
    decreases |steps|
  {
    && (Quiet(w) ==> w == u)
    && (steps != [] && Enabled(w, steps[0]) ==>
          AlwaysAtomic(AfterEvents(u, Completes(w, steps[0])), Next(w, steps[0]), steps[1..]))
  }

  // ----- the scan alone -----

  /** `v` is on the way from the quiet world `u` through a scan, with no reading under way. */
  ghost predicate OnTheWay(u: World, v: World) {
    && Quiet(u) && v.server.Waiting?
    && match v.scanner {
      case Resting => v == u
      case Walking(start, n, _, now, timeout) => start == u.timers && n <= |start| && v == Halfway(u, start, n, now, timeout)
      case Read(start, n, _, now, timeout, _, _) =>
        && start == u.timers && n < |start| && now - start[n].value >= timeout
        && Enabled(Halfway(u, start, n, now, timeout), Visit) && v == Next(Halfway(u, start, n, now, timeout), Visit)
      case Dropped(start, n, _, now, timeout, _, _) =>
        && start == u.timers && n < |start| && now - start[n].value >= timeout
        && Enabled(Halfway(u, start, n, now, timeout), Visit)
        && Enabled(Next(Halfway(u, start, n, now, timeout), Visit), Drop)
        && v == Next(Next(Halfway(u, start, n, now, timeout), Visit), Drop)
    }
  }

  lemma {:induction false} BeginOnTheWay(u: World, now: int, timeout: int)
    requires Quiet(u)
    ensures Next(u, Begin(now, timeout)) == Halfway(u, u.timers, 0, now, timeout)
  {
    assert u.timers[..0] == [] && [] + u.timers[0..] == u.timers && u.notes + [] == u.notes;
  }

  /** The walk of a scan passes a timer that has not timed out, or picks one that has. */
  lemma {:induction false} VisitOnTheWay(u: World, v: World)
    requires OnTheWay(u, v) && Enabled(v, Visit)
    ensures OnTheWay(u, Next(v, Visit))
  {
    var c := v.scanner;
    HalfwayNext(u, c.start, c.done, c.now, c.timeout);
  }

  lemma {:induction false} RemoveOnTheWay(u: World, v: World)
    requires OnTheWay(u, v) && Enabled(v, Remove)
    ensures OnTheWay(u, Next(v, Remove))
  {
    var c := v.scanner;
    HalfwayNext(u, c.start, c.done, c.now, c.timeout);
  }

  lemma {:induction false} EndOfTheWay(u: World, v: World)
    requires OnTheWay(u, v) && Enabled(v, End)
    ensures Next(v, End) == AfterScan(u, v.scanner.now, v.scanner.timeout)
  {
    var c := v.scanner;
    assert v.timers == v.timers[..c.at] + c.start[c.done..];
    assert c.done == |c.start|;
    assert c.start[..c.done] == c.start && c.start[c.done..] == [];
    assert v.timers[..c.at] + [] == v.timers[..c.at];
  }

  predicate IsScanStep(step: Step) { step.Begin? || step.Visit? || step.Drop? || step.Remove? || step.End? }

  lemma {:induction false} ScanStep(u: World, v: World, step: Step)
    requires OnTheWay(u, v) && Enabled(v, step) && IsScanStep(step)
    ensures OnTheWay(AfterEvents(u, Completes(v, step)), Next(v, step))
  {
    match step {
      case Begin(now, timeout) => BeginOnTheWay(u, now, timeout);
      case Visit => VisitOnTheWay(u, v);
      case Drop =>
      case Remove => RemoveOnTheWay(u, v);
      case End =>
        EndOfTheWay(u, v);
        OneEvent(u, Scan(v.scanner.now, v.scanner.timeout));
    }
  }

  lemma {:induction false} OneEvent(u: World, e: Event)
    ensures AfterEvents(u, [e]) == AfterEvent(u, e)
  {
    assert [e][1..] == [];
  }

  // ----- the scan with a reading under way -----

  /** The world `v` with the reading of the server thread as far as it has come. */
  function Underway(v: World, server: Server): World {
    match server
    case Waiting => v
    case Looked(id, slave, _) => v.(server := Looked(id, slave, Lookup(v.students, id)))
    case Stored(id, slave) =>
      v.(students := Store(v.students, id, NextPacked(Lookup(v.students, id), slave)), server := server)
  }

  ghost predicate Behind(v: World, w: World) { v.server.Waiting? && w == Underway(v, w.server) }

  /** The scan has picked the very student that is being read: neither can go on. */
  predicate Stuck(w: World) { w.scanner.Read? && !w.server.Waiting? && w.server.id == Picked(w) }

  lemma {:induction false} StoreThenErase(s: seq<Pair>, id: string, x: int, key: string)
    requires id != key
    ensures Erase(Store(s, id, x), key) == Store(Erase(s, key), id, x)
    ensures id in Keys(Erase(s, key)) <==> id in Keys(s)
  {
    if s == [] {
    } else {
      var p, rest := s[0], s[1..];
      assert s == [p] + rest;
      if p.key != key {
        StoreThenErase(rest, id, x, key);
        assert ([p] + Erase(rest, key))[1..] == Erase(rest, key);
      }
      if p.key != id {
        assert ([p] + Overwrite(rest, id, x))[1..] == Overwrite(rest, id, x);
      }
      assert ([Pair(id, x)] + s)[1..] == s;
    }
  }

  lemma {:induction false} LookupAfterStore(s: seq<Pair>, id: string, x: int, key: string)
    ensures Lookup(Store(s, id, x), key) == if key == id then x else Lookup(s, key)
    ensures key in Keys(Store(s, id, x)) <==> key in Keys(s) || key == id
  {
    StoreKeys(s, id, x);
    StoreIsMap(s, id, x);
    LookupIsMap(Store(s, id, x), key);
    LookupIsMap(s, key);
  }

  lemma {:induction false} DropBehind(v: World, w: World)
    requires Behind(v, w) && Enabled(v, Drop) && !Interferes(w, Drop)
    ensures Behind(Next(v, Drop), Next(w, Drop))
  {
    if !w.server.Waiting? {
      var x := if w.server.Stored? then NextPacked(Lookup(v.students, w.server.id), w.server.slave) else 0;
      LookupAfterErase(v.students, w.server.id, Picked(v));
      StoreThenErase(v.students, w.server.id, x, Picked(v));
    }
  }

  lemma {:induction false} VisitBehind(v: World, w: World)
    requires Behind(v, w) && Enabled(v, Visit)
    ensures Behind(Next(v, Visit), Next(w, Visit)) || Stuck(Next(w, Visit))
  {
    if w.server.Stored? {
      var x := NextPacked(Lookup(v.students, w.server.id), w.server.slave);
      LookupAfterStore(v.students, w.server.id, x, v.timers[v.scanner.at].key);
    }
  }

  /** A scan step is taken alike with and without the reading, unless it gets stuck on it. */
  lemma {:induction false} ScanStepBehind(v: World, w: World, step: Step)
    requires Behind(v, w) && IsScanStep(step) && Enabled(w, step) && !Interferes(w, step)
    ensures Enabled(v, step) && Completes(v, step) == Completes(w, step)
    ensures Behind(Next(v, step), Next(w, step)) || Stuck(Next(w, step))
  {
    match step {
      case Visit => VisitBehind(v, w);
      case Drop => DropBehind(v, w);
      case _ =>
    }
  }

  /** A reading step leaves the scan where it is, until the timer is set in a world without a scan. */
  lemma {:induction false} ServerStepBehind(u: World, v: World, w: World, step: Step)
    requires OnTheWay(u, v) && Behind(v, w) && !IsScanStep(step) && Enabled(w, step)
    ensures !step.Arm? ==> Completes(w, step) == [] && Behind(v, Next(w, step))
    ensures step.Arm? ==> Next(w, step) == AfterEvents(u, Completes(w, step)) && Quiet(Next(w, step))
  {
    match step {
      case Arm(now) =>
        OneEvent(u, Reading(w.server.id, w.server.slave, now));
      case _ =>
    }
  }

  lemma {:induction false} StuckForGood(u: World, w: World, steps: seq<Step>)
    requires Stuck(w) && Avoids(w, steps, Interferes)
    ensures AlwaysAtomic(u, w, steps)
    decreases |steps|
  {
    if steps != [] && Enabled(w, steps[0]) {
      StuckForGood(u, Next(w, steps[0]), steps[1..]);
    }
  }

  lemma {:induction false} AtomicFrom(u: World, v: World, w: World, steps: seq<Step>)
    requires OnTheWay(u, v) && Behind(v, w) && Avoids(w, steps, Interferes)
    ensures AlwaysAtomic(u, w, steps)
    decreases |steps|
  {
    if steps != [] && Enabled(w, steps[0]) {
      var step, next := steps[0], Next(w, steps[0]);
      var u' := AfterEvents(u, Completes(w, step));
      if IsScanStep(step) {
        ScanStepBehind(v, w, step);
        ScanStep(u, v, step);
        if Stuck(next) {
          StuckForGood(u', next, steps[1..]);
        } else {
          AtomicFrom(u', Next(v, step), next, steps[1..]);
        }
      } else {
        ServerStepBehind(u, v, w, step);
        AtomicFrom(u', if step.Arm? then next else v, next, steps[1..]);
      }
    }
  }

  lemma {:induction false} EventsAtEnd(u: World, w: World, steps: seq<Step>, end: World)
    requires AlwaysAtomic(u, w, steps) && Runs(w, steps, end) && Quiet(end)
    ensures end == AfterEvents(u, EventsOf(w, steps))
    decreases |steps|
  {
    if steps != [] {
      var done, rest := Completes(w, steps[0]), EventsOf(Next(w, steps[0]), steps[1..]);
      EventsAtEnd(AfterEvents(u, done), Next(w, steps[0]), steps[1..], end);
      if done != [] {
        OneEvent(u, done[0]);
        assert done == [done[0]] && (done + rest)[1..] == rest;
      } else {
        assert done + rest == rest;
      }
    }
  }

  /** Every run in which no removal meets a reading of the same student, and which leaves neither a
      reading nor a scan unfinished, is a run of the atomic merger on the events it completes: same
      tables, same notifications. Readings of other students may overlap a scan in any way. */
  lemma {:induction false} AtomicUnlessInterferes(steps: seq<Step>, end: World)
    requires Runs(START, steps, end) && Avoids(START, steps, Interferes) && Quiet(end)
    ensures var (t, outs) := MergerRun(Tables([], []), EventsOf(START, steps));
      end == World(t.students, t.timers, Waiting, Resting, Flatten(outs))
  {
    AtomicFrom(START, START, START, steps);
    EventsAtEnd(START, START, steps, end);
    AfterEventsIsRun(START, EventsOf(START, steps));
    assert START.notes + Flatten(MergerRun(Tables([], []), EventsOf(START, steps)).1)
        == Flatten(MergerRun(Tables([], []), EventsOf(START, steps)).1);
  }

  // ----- and only those runs -----

  /** The scan, or one with these settings, finds the student timed out. */
  ghost predicate Expires(timers: seq<Pair>, now: int, timeout: int, key: string) {
    exists i :: 0 <= i < |timers| && timers[i].key == key && now - timers[i].value >= timeout
  }

  lemma {:induction false} ScanKeepsTimers(timers: seq<Pair>, students: seq<Pair>, now: int, timeout: int,
                                           judge: (string, int) -> seq<Notification>)
    ensures ScanBy(timers, students, now, timeout, judge).0.timers == Unexpired(timers, now, timeout)
  {
    if timers != [] {
      ScanKeepsTimers(timers[..|timers| - 1], students, now, timeout, judge);
    }
  }

  lemma {:induction false} ExpiresSnoc(init: seq<Pair>, p: Pair, now: int, timeout: int, key: string)
    ensures Expires(init + [p], now, timeout, key)
       <==> Expires(init, now, timeout, key) || (p.key == key && now - p.value >= timeout)
  {
    var timers := init + [p];
    assert timers[|init|] == p;
    assert forall i :: 0 <= i < |init| ==> timers[i] == init[i];
  }

  /** A scan leaves no student that it found timed out. */
  lemma {:induction false} ScanForgets(timers: seq<Pair>, students: seq<Pair>, now: int, timeout: int,
                                       judge: (string, int) -> seq<Notification>, key: string)
    requires DistinctKeys(students)
    ensures var left := ScanBy(timers, students, now, timeout, judge).0.students;
      && DistinctKeys(left)
      && (key !in Keys(students) || Expires(timers, now, timeout, key) ==> key !in Keys(left))
  {
    if timers != [] {
      var init, p := timers[..|timers| - 1], timers[|timers| - 1];
      assert timers == init + [p];
      ScanForgets(init, students, now, timeout, judge, key);
      EraseKeySet(ScanBy(init, students, now, timeout, judge).0.students, p.key);
      ExpiresSnoc(init, p, now, timeout, key);
    }
  }

  /** The atomic world has the timers the interleaved one has, or had when its scan began. */
  ghost predicate TimersAgree(u: World, w: World) {
    if w.scanner.Resting? then w.timers == u.timers else w.scanner.start == u.timers
  }

  /** Every timer has its student, except the one the scan has just dropped; and a reading that is
      written is there. */
  ghost predicate Companions(w: World) {
    && (forall k :: k in Keys(w.timers) ==> k in Keys(w.students) || (w.scanner.Dropped? && k == Picked(w)))
    && (w.server.Stored? ==> w.server.id in Keys(w.students))
  }

  lemma {:induction false} StepTimersAgree(u: World, w: World, step: Step)
    requires TimersAgree(u, w) && DistinctKeys(u.students) && Inv(w) && Enabled(w, step)
    ensures var u' := AfterEvents(u, Completes(w, step)); TimersAgree(u', Next(w, step)) && DistinctKeys(u'.students)
  {
    match step {
      case Arm(now) =>
        OneEvent(u, Reading(w.server.id, w.server.slave, now));
        StoreKeys(u.students, w.server.id, NextPacked(Lookup(u.students, w.server.id), w.server.slave));
      case End =>
        var c := w.scanner;
        OneEvent(u, Scan(c.now, c.timeout));
        ScanForgets(u.timers, u.students, c.now, c.timeout, JudgePacked, "");
        ScanKeepsTimers(u.timers, u.students, c.now, c.timeout, JudgePacked);
        assert c.start[c.done..] == [] && c.start[..c.done] == c.start;
      case _ =>
    }
  }

  lemma {:induction false} RemoveCompanions(w: World)
    requires Companions(w) && Inv(w) && Enabled(w, Remove)
    ensures Companions(Next(w, Remove))
  {
    UnlinkIsErase(w.timers, w.scanner.at);
    EraseKeySet(w.timers, Picked(w));
  }

  lemma {:induction false} StepCompanions(w: World, step: Step)
    requires Companions(w) && Inv(w) && Enabled(w, step) && !Interferes(w, step)
    ensures Companions(Next(w, step))
  {
    match step {
      case Write => StoreKeys(w.students, w.server.id, NextPacked(w.server.packed, w.server.slave));
      case Arm(now) => StoreKeys(w.timers, w.server.id, now);
      case Drop => EraseKeySet(w.students, Picked(w));
      case Remove => RemoveCompanions(w);
      case _ =>
    }
  }

  /** The atomic merger has forgotten the student, or will when the scan ends. */
  ghost predicate Condemned(u: World, w: World, key: string) {
    || key !in Keys(u.students)
    || (!w.scanner.Resting? && w.scanner.start == u.timers && Expires(u.timers, w.scanner.now, w.scanner.timeout, key))
  }

  /** After the removal of the student being read: its state is gone for good, or a state from
      before the removal is written, which the atomic merger does not know. */
  ghost predicate Spoilt(u: World, w: World, key: string, h: History, pack: History -> int) {
    && DistinctKeys(u.students) && !w.server.Waiting? && w.server.id == key
    && match w.server {
      case Looked(_, _, packed) => h != [] && packed == pack(h) && Condemned(u, w, key)
      case _ =>
        || key !in Keys(w.students)
        || (h != [] && Lookup(w.students, key) == pack(h + [w.server.slave]) && Condemned(u, w, key))
    }
  }

  lemma {:induction false} ScanStepSpoilt(u: World, w: World, step: Step, key: string, h: History, pack: History -> int)
    requires Spoilt(u, w, key, h, pack) && Inv(w) && Enabled(w, step) && IsScanStep(step)
    ensures Spoilt(AfterEvents(u, Completes(w, step)), Next(w, step), key, h, pack)
  {
    match step {
      case Drop =>
        EraseKeySet(w.students, Picked(w));
        if Picked(w) != key { LookupAfterErase(w.students, key, Picked(w)); }
      case End =>
        OneEvent(u, Scan(w.scanner.now, w.scanner.timeout));
        ScanForgets(u.timers, u.students, w.scanner.now, w.scanner.timeout, JudgePacked, key);
      case _ =>
    }
  }

  lemma {:induction false} WriteSpoilt(u: World, w: World, key: string, h: History, pack: History -> int)
    requires Spoilt(u, w, key, h, pack) && Enabled(w, Write) && Faithful(pack)
    ensures Spoilt(u, Next(w, Write), key, h, pack)
  {
    var slave := w.server.slave;
    assert NextPacked(pack(h), slave) == pack(h + [slave]);
    LookupAfterStore(w.students, key, NextPacked(w.server.packed, slave), key);
  }

  /** When the timer of the spoilt reading is set, the two worlds differ. */
  lemma {:induction false} ArmShows(u: World, w: World, now: int, key: string, h: History, pack: History -> int)
    requires Spoilt(u, w, key, h, pack) && Enabled(w, Arm(now)) && Faithful(pack) && Remembers(pack)
    ensures Next(w, Arm(now)).students != AfterReading(u, key, w.server.slave, now).students
  {
    var slave := w.server.slave;
    var x := NextPacked(Lookup(u.students, key), slave);
    LookupAfterStore(u.students, key, x, key);
    if key in Keys(w.students) {
      AbsentIsZero(u.students, key);
      assert pack([]) == 0 && [] + [slave] == [slave];
      assert NextPacked(pack([]), slave) == pack([] + [slave]);
    }
  }

  lemma {:induction false} SpoiltShows(u: World, w: World, steps: seq<Step>, end: World, key: string, h: History,
                                       pack: History -> int)
    requires Spoilt(u, w, key, h, pack) && Inv(w) && Faithful(pack) && Remembers(pack)
    requires Runs(w, steps, end) && Quiet(end)
    ensures !AlwaysAtomic(u, w, steps)
    decreases |steps|
  {
    if steps != [] {
      var step, next := steps[0], Next(w, steps[0]);
      StepKeeps(w, step);
      if IsScanStep(step) {
        ScanStepSpoilt(u, w, step, key, h, pack);
        SpoiltShows(AfterEvents(u, Completes(w, step)), next, steps[1..], end, key, h, pack);
      } else if step.Write? {
        WriteSpoilt(u, w, key, h, pack);
        SpoiltShows(u, next, steps[1..], end, key, h, pack);
      } else {
        OneEvent(u, Reading(key, w.server.slave, step.now));
        ArmShows(u, w, step.now, key, h, pack);
      }
    }
  }

  /** The removal of a student that is being read spoils the reading. */
  lemma {:induction false} InterferenceSpoils(u: World, w: World, open: Open, pack: History -> int)
    requires Inv(w) && Booked(w, open, pack) && Companions(w) && TimersAgree(u, w) && DistinctKeys(u.students)
    requires Enabled(w, Drop) && Interferes(w, Drop)
    ensures Spoilt(u, Next(w, Drop), w.server.id, HistoryOf(open, w.server.id), pack)
  {
    var c, key := w.scanner, w.server.id;
    assert w.timers[c.at] == c.start[c.done];
    assert Expires(c.start, c.now, c.timeout, key);
    EraseKeySet(w.students, key);
    assert Keys(w.timers)[c.at] == key;
    RepresentKeys(open, pack);
    StoredHasReadings(open, key);
  }

  lemma {:induction false} InterferenceShows(u: World, w: World, open: Open, steps: seq<Step>, end: World,
                                             pack: History -> int)
    requires Inv(w) && Booked(w, open, pack) && Companions(w) && TimersAgree(u, w) && DistinctKeys(u.students)
    requires Faithful(pack) && Remembers(pack) && Runs(w, steps, end) && Quiet(end)
    requires AlwaysAtomic(u, w, steps)
    ensures Avoids(w, steps, Interferes)
    decreases |steps|
  {
    if steps != [] {
      var step, next := steps[0], Next(w, steps[0]);
      StepKeeps(w, step);
      if Interferes(w, step) {
        InterferenceSpoils(u, w, open, pack);
        SpoiltShows(u, next, steps[1..], end, w.server.id, HistoryOf(open, w.server.id), pack);
      } else {
        StepBooks(w, open, step, pack);
        StepCompanions(w, step);
        StepTimersAgree(u, w, step);
        InterferenceShows(AfterEvents(u, Completes(w, step)), next, After(w, open, step), steps[1..], end, pack);
      }
    }
  }

  /** A run that leaves nothing unfinished agrees with the atomic merger at every quiet point if and
      only if in it no student is removed while a reading of that student is under way. */
  lemma {:induction false} AtomicIff(steps: seq<Step>, end: World)
    requires Runs(START, steps, end) && Quiet(end)
    ensures AlwaysAtomic(START, START, steps) <==> Avoids(START, steps, Interferes)
  {
    if Avoids(START, steps, Interferes) {
      AtomicFrom(START, START, START, steps);
    }
    if AlwaysAtomic(START, START, steps) {
      PackedIsFaithful();
      PackedRemembers();
      InterferenceShows(START, START, [], steps, end, PackedState);
    }
  }
}