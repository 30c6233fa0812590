/** The server and timeout threads interleaved at every dictionary call.

    handle_student takes no lock around its get and set of `students`; only set_timeout and
    check_timers exclude each other. A scan can therefore run between the get and the set of a
    reading and the set then writes back a stale state. What remains in every interleaving is proved
    here, with a run that shows what is lost; Interleaved.dfy and Atomicity.dfy say when nothing is. */
module FineGrained {
  import opened Dict
  import opened Session
  import opened Sessions

  /** Where the server thread stands in handle_student. */
  datatype Server = Waiting | Looked(id: string, slave: bool, packed: int) | Stored(id: string, slave: bool)

  /** Where the timeout thread stands in check_timers. It holds the timer lock unless Resting.
      `start` are the timers it found, of which it has passed `done`; the timer it looks at has
      position `at` in the list. */
  datatype Scanner =
    | Resting
    | Walking(start: seq<Pair>, done: nat, at: nat, now: int, timeout: int)
    | Read(start: seq<Pair>, done: nat, at: nat, now: int, timeout: int, packed: int, hadState: bool)
    | Dropped(start: seq<Pair>, done: nat, at: nat, now: int, timeout: int, packed: int, hadState: bool)

  datatype World = World(students: seq<Pair>, timers: seq<Pair>, server: Server, scanner: Scanner, notes: seq<Notification>)

  datatype Step =
    | Look(id: string, slave: bool)         // get(students, id)
    | Write                                 // set(students, id, state)
    | Arm(now: int)                         // set_timeout(id)
    | Begin(now: int, timeout: int)         // check_timers takes the lock
    | Visit                                 // compare a timer; get(students, key) when it timed out
    | Drop                                  // del(students, key)
    | Remove                                // __remove(prev_timer), then notify
    | End                                   // check_timers gives the lock back

  const START := World([], [], Waiting, Resting, [])

  predicate Enabled(w: World, step: Step) {
    match step
    case Look(_, _) => w.server.Waiting?
    case Write => w.server.Looked?
    case Arm(_) => w.server.Stored? && w.scanner.Resting?
    case Begin(_, _) => w.scanner.Resting?
    case Visit => w.scanner.Walking? && w.scanner.at < |w.timers|
    case Drop => w.scanner.Read? && w.scanner.at < |w.timers|
    case Remove => w.scanner.Dropped? && w.scanner.at < |w.timers|
    case End => w.scanner.Walking? && w.scanner.at >= |w.timers|
  }

  function Next(w: World, step: Step): World
    requires Enabled(w, step)
  {
    var c := w.scanner;
    match step
    case Look(id, slave) => w.(server := Looked(id, slave, Lookup(w.students, id)))
    case Write =>
      w.(students := Store(w.students, w.server.id, NextPacked(w.server.packed, w.server.slave)),
         server := Stored(w.server.id, w.server.slave))
    case Arm(now) => w.(timers := Store(w.timers, w.server.id, now), server := Waiting)
    case Begin(now, timeout) => w.(scanner := Walking(w.timers, 0, 0, now, timeout))
    case Visit =>
      var p := w.timers[c.at];
      w.(scanner :=
        if c.now - p.value >= c.timeout
        then Read(c.start, c.done, c.at, c.now, c.timeout, Lookup(w.students, p.key), p.key in Keys(w.students))
        else Walking(c.start, c.done + 1, c.at + 1, c.now, c.timeout))
    case Drop =>
      w.(students := Erase(w.students, w.timers[c.at].key),
         scanner := Dropped(c.start, c.done, c.at, c.now, c.timeout, c.packed, c.hadState))
    case Remove =>
      w.(timers := Cut(w.timers, c.at),
         notes := w.notes + JudgePacked(w.timers[c.at].key, c.packed),
         scanner := Walking(c.start, c.done + 1, c.at, c.now, c.timeout))
    case End => w.(scanner := Resting)
  }

  ghost predicate Runs(w: World, steps: seq<Step>, end: World)
    decreases |steps|
  {
    if steps == [] then w == end
    else Enabled(w, steps[0]) && Runs(Next(w, steps[0]), steps[1..], end)
  }

  // ----- the invariant -----

  /** Every student has a timer, or is the one whose timer the server is about to set. */
  ghost predicate NoLeak(w: World) {
    forall k :: k in Keys(w.students) ==> k in Keys(w.timers) || (w.server.Stored? && w.server.id == k)
  }

  /** Only the scan touches the timers while it runs: they are the passed ones that had not timed
      out, then the ones still to come. */
  ghost predicate ScanExact(w: World) {
    var c := w.scanner;
    c.Resting? ||
    (&& c.done <= |c.start|
     && c.at == |Unexpired(c.start[..c.done], c.now, c.timeout)|
     && w.timers == Unexpired(c.start[..c.done], c.now, c.timeout) + c.start[c.done..])
  }

  /** A timer picked for removal has timed out; once its student was dropped, only the server can
      have put the student back; and a missing student was read as the zero state. */
  ghost predicate PickedExact(w: World) {
    var c := w.scanner;
    c.Read? || c.Dropped? ==>
      && c.done < |c.start| && c.at < |w.timers|
      && c.now - c.start[c.done].value >= c.timeout
      && (!c.hadState ==> c.packed == 0)
      && (c.Dropped? && w.timers[c.at].key in Keys(w.students) ==> w.server.Stored? && w.server.id == w.timers[c.at].key)
  }

  ghost predicate Inv(w: World) {
    DistinctKeys(w.students) && DistinctKeys(w.timers) && NoLeak(w) && ScanExact(w) && PickedExact(w)
  }

  lemma {:induction false} EraseKeySet(s: seq<Pair>, key: string)
    requires DistinctKeys(s)
    ensures DistinctKeys(Erase(s, key))
    ensures forall k :: k in Keys(Erase(s, key)) <==> k in Keys(s) && k != key
  {
    EraseDistinct(s, key);
    EraseIsMap(s, key);
    AsMapKeys(s);
    AsMapKeys(Erase(s, key));
    forall k ensures k in Keys(Erase(s, key)) <==> k in Keys(s) && k != key {
      assert k in AsMap(Erase(s, key)) <==> k in AsMap(s) && k != key;
    }
  }

  lemma {:induction false} ScanMoves(start: seq<Pair>, done: nat, now: int, timeout: int)
    requires done < |start|
    ensures Unexpired(start[..done + 1], now, timeout)
         == Unexpired(start[..done], now, timeout) + if now - start[done].value >= timeout then [] else [start[done]]
    ensures start[done..] == [start[done]] + start[done + 1..]
  {
    assert start[..done + 1][..done] == start[..done];
  }

  lemma {:induction false} ServerKeeps(w: World, step: Step)
    requires Inv(w) && Enabled(w, step) && (step.Look? || step.Write? || step.Arm?)
    ensures Inv(Next(w, step))
  {
    match step {
      case Look(_, _) =>
      case Write => StoreKeys(w.students, w.server.id, NextPacked(w.server.packed, w.server.slave));
      case Arm(now) => StoreKeys(w.timers, w.server.id, now);
    }
  }

  lemma {:induction false} VisitKeeps(w: World)
    requires Inv(w) && Enabled(w, Visit)
    ensures Inv(Next(w, Visit))
  {
    var c := w.scanner;
    assert c.done < |c.start| && w.timers[c.at] == c.start[c.done];
    ScanMoves(c.start, c.done, c.now, c.timeout);
    AbsentIsZero(w.students, w.timers[c.at].key);
  }

  lemma {:induction false} AbsentIsZero(s: seq<Pair>, key: string)
    ensures key !in Keys(s) ==> Lookup(s, key) == 0
  {
    LookupIsMap(s, key);
    AsMapKeys(s);
  }

  lemma {:induction false} DropKeeps(w: World)
    requires Inv(w) && Enabled(w, Drop)
    ensures Inv(Next(w, Drop))
  {
    EraseKeySet(w.students, w.timers[w.scanner.at].key);
  }

  lemma {:induction false} RemoveKeeps(w: World)
    requires Inv(w) && Enabled(w, Remove)
    ensures Inv(Next(w, Remove))
  {
    var c := w.scanner;
    assert w.timers[c.at] == c.start[c.done];
    ScanMoves(c.start, c.done, c.now, c.timeout);
    UnlinkIsErase(w.timers, c.at);
    EraseKeySet(w.timers, w.timers[c.at].key);
    var kept := Unexpired(c.start[..c.done], c.now, c.timeout);
    assert Cut(w.timers, c.at) == kept + c.start[c.done + 1..];
  }

  lemma {:induction false} StepKeeps(w: World, step: Step)
    requires Inv(w) && Enabled(w, step)
    ensures Inv(Next(w, step))
  {
    match step {
      case Look(_, _) => ServerKeeps(w, step);
      case Write => ServerKeeps(w, step);
      case Arm(_) => ServerKeeps(w, step);
      case Begin(now, timeout) => assert w.timers[..0] == [] && [] + w.timers[0..] == w.timers;
      case Visit => VisitKeeps(w);
      case Drop => DropKeeps(w);
      case Remove => RemoveKeeps(w);
      case End =>
    }
  }

  lemma {:induction false} InvRuns(w: World, steps: seq<Step>, end: World)
    requires Inv(w) && Runs(w, steps, end)
    ensures Inv(end)
    decreases |steps|
  {
    if steps != [] {
      StepKeeps(w, steps[0]);
      InvRuns(Next(w, steps[0]), steps[1..], end);
    }
  }

  /** In every interleaving no student is left without a timer, unless the server is just about to
      set it; keys stay distinct and the timer list is exact at every point of every scan. */
  lemma {:induction false} NeverLeaks(steps: seq<Step>, end: World)
    requires Runs(START, steps, end)
    ensures Inv(end)
    ensures end.server.Waiting? ==> forall k :: k in Keys(end.students) ==> k in Keys(end.timers)
  {
    InvRuns(START, steps, end);
  }

  /** A notification is only ever sent for a timed-out student whose state was found when the timer
      was visited: a timer without student state is removed silently. */
  lemma {:induction false} NotifiesOnlyWithState(steps: seq<Step>, w: World, step: Step)
    requires Runs(START, steps, w) && Enabled(w, step)
    ensures Next(w, step).notes != w.notes ==>
      && step.Remove? && w.scanner.hadState && w.scanner.packed != 0
      && w.scanner.now - w.timers[w.scanner.at].value >= w.scanner.timeout
  {
    NeverLeaks(steps, w);
    if step.Remove? {
      assert w.timers[w.scanner.at] == w.scanner.start[w.scanner.done];
      ZeroIsSilent(w.timers[w.scanner.at].key);
    }
  }

  lemma {:induction false} ZeroIsSilent(id: string)
    ensures JudgePacked(id, 0) == []
  {
    assert Unpack(0) == State(0, 0, 0);
  }

  /** Whatever the server does meanwhile, a scan leaves exactly the timers it found unexpired, in
      their order. */
  lemma {:induction false} ScanEndsExact(steps: seq<Step>, w: World)
    requires Runs(START, steps, w) && Enabled(w, End)
    ensures w.timers == Unexpired(w.scanner.start, w.scanner.now, w.scanner.timeout)
  {
    NeverLeaks(steps, w);
    var c := w.scanner;
    assert c.start[c.done..] == [] && c.start[..c.done] == c.start;
  }

  // ----- uninterrupted calls are the atomic steps -----

  lemma {:induction false} RunsAppend(w: World, a: seq<Step>, mid: World, b: seq<Step>, end: World)
    requires Runs(w, a, mid) && Runs(mid, b, end)
    ensures Runs(w, a + b, end)
    decreases |a|
  {
    if a == [] {
      assert a + b == b;
    } else {
      assert (a + b)[1..] == a[1..] + b;
      RunsAppend(Next(w, a[0]), a[1..], mid, b, end);
    }
  }

  lemma {:induction false} RunsOne(w: World, step: Step)
    requires Enabled(w, step)
    ensures Runs(w, [step], Next(w, step))
  {
    assert [step][1..] == [];
  }

  lemma {:induction false} RunsMore(w: World, steps: seq<Step>, mid: World, step: Step)
    requires Runs(w, steps, mid) && Enabled(mid, step)
    ensures Runs(w, steps + [step], Next(mid, step))
  {
    RunsOne(mid, step);
    RunsAppend(w, steps, mid, [step], Next(mid, step));
  }

  function AfterReading(w: World, id: string, slave: bool, now: int): World {
    var t := HandleStudent(Tables(w.students, w.timers), id, slave, now);
    w.(students := t.students, timers := t.timers)
  }

  /** The three calls of handle_student without interruption are one atomic reading. */
  lemma {:induction false} AtomicReading(w: World, id: string, slave: bool, now: int)
    requires w.server.Waiting? && w.scanner.Resting?
    ensures Runs(w, [Look(id, slave), Write, Arm(now)], AfterReading(w, id, slave, now))
  {
    var looked := Next(w, Look(id, slave));
    RunsOne(w, Look(id, slave));
    RunsMore(w, [Look(id, slave)], looked, Write);
    RunsMore(w, [Look(id, slave)] + [Write], Next(looked, Write), Arm(now));
    assert [Look(id, slave)] + [Write] + [Arm(now)] == [Look(id, slave), Write, Arm(now)];
  }

  /** A walking scan, left alone, can pass every remaining timer as the atomic scan does. */
  lemma {:induction false} ScanOn(w: World, start: seq<Pair>, ss: seq<Pair>, notes: seq<Notification>,
                                  n: nat, now: int, timeout: int)
    returns (steps: seq<Step>)
    requires w.scanner.Resting? && w.timers == start && w.students == ss && w.notes == notes && n <= |start|
    ensures Runs(w, steps, Halfway(w, start, n, now, timeout)) && Looks(steps) == 0
  {
    if n == 0 {
      steps := [Begin(now, timeout)];
      RunsOne(w, Begin(now, timeout));
      assert start[..0] == [] && start[0..] == start;
      assert [Begin(now, timeout)][1..] == [];
    } else {
      steps := ScanOn(w, start, ss, notes, n - 1, now, timeout);
      var h := Halfway(w, start, n - 1, now, timeout);
      HalfwayNext(w, start, n - 1, now, timeout);
      var visited := Next(h, Visit);
      RunsMore(w, steps, h, Visit);
      LooksAppend(steps, [Visit]);
      steps := steps + [Visit];
      if now - start[n - 1].value >= timeout {
        RunsMore(w, steps, visited, Drop);
        LooksAppend(steps, [Drop]);
        steps := steps + [Drop];
        RunsMore(w, steps, Next(visited, Drop), Remove);
        LooksAppend(steps, [Remove]);
        steps := steps + [Remove];
      }
    }
  }

  /** The world after the scan has passed n timers. */
  function Halfway(w: World, start: seq<Pair>, n: nat, now: int, timeout: int): World
    requires n <= |start|
  {
    var (t, more) := ScanBy(start[..n], w.students, now, timeout, JudgePacked);
    World(t.students, t.timers + start[n..], w.server, Walking(start, n, |t.timers|, now, timeout), w.notes + more)
  }

  lemma {:induction false} HalfwayNext(w: World, start: seq<Pair>, n: nat, now: int, timeout: int)
    requires n < |start|
    ensures var (h, g) := (Halfway(w, start, n, now, timeout), Halfway(w, start, n + 1, now, timeout));
      && Enabled(h, Visit)
      && (now - start[n].value < timeout ==> Next(h, Visit) == g)
      && (now - start[n].value >= timeout ==>
          && Enabled(Next(h, Visit), Drop) && Enabled(Next(Next(h, Visit), Drop), Remove)
          && Next(Next(Next(h, Visit), Drop), Remove) == g)
  {
    var (t, more) := ScanBy(start[..n], w.students, now, timeout, JudgePacked);
    var p := start[n];
    assert start[..n + 1][..n] == start[..n];
    assert (t.timers + start[n..])[|t.timers|] == p;
    assert Cut(t.timers + start[n..], |t.timers|) == t.timers + start[n + 1..];
    assert t.timers + start[n..] == (t.timers + [p]) + start[n + 1..];
    assert (w.notes + more) + JudgePacked(p.key, Lookup(t.students, p.key))
        == w.notes + (more + JudgePacked(p.key, Lookup(t.students, p.key)));
  }

  function AfterScan(w: World, now: int, timeout: int): World {
    var (t, notes) := CheckTimers(Tables(w.students, w.timers), now, timeout);
    w.(students := t.students, timers := t.timers, notes := w.notes + notes)
  }

  /** Scan steps alone can do what one atomic scan does, wherever the server stands. */
  lemma {:induction false} AtomicScan(w: World, now: int, timeout: int) returns (steps: seq<Step>)
    requires w.scanner.Resting?
    ensures Runs(w, steps, AfterScan(w, now, timeout)) && Looks(steps) == 0
  {
    steps := ScanOn(w, w.timers, w.students, w.notes, |w.timers|, now, timeout);
    var h := Halfway(w, w.timers, |w.timers|, now, timeout);
    assert w.timers[..|w.timers|] == w.timers && w.timers[|w.timers|..] == [];
    assert h.timers == CheckTimers(Tables(w.students, w.timers), now, timeout).0.timers;
    RunsMore(w, steps, h, End);
    LooksAppend(steps, [End]);
    steps := steps + [End];
  }

  /** How many readings a run handles. */
  function Looks(steps: seq<Step>): nat {
    if steps == [] then 0 else Looks(steps[..|steps| - 1]) + if steps[|steps| - 1].Look? then 1 else 0
  }

  lemma {:induction false} LooksAppend(a: seq<Step>, b: seq<Step>)
    ensures Looks(a + b) == Looks(a) + Looks(b)
  {
    if b == [] {
      assert a + b == a;
    } else {
      assert (a + b)[..|a + b| - 1] == a + b[..|b| - 1];
      LooksAppend(a, b[..|b| - 1]);
    }
  }

  // ----- what the missing lock costs -----

  function WorldOf(open: Open, server: Server, notes: seq<Notification>): World {
    World(Represent(open).students, Represent(open).timers, server, Resting, notes)
  }

  lemma {:induction false} ReadAll(id: string, h: History, now: int) returns (steps: seq<Step>)
    requires h != []
    ensures Runs(START, steps, WorldOf([OpenSession(id, h, now)], Waiting, [])) && Looks(steps) == |h|
    ensures forall step :: step in steps ==> !step.Drop?
  {
    var g, b := h[..|h| - 1], h[|h| - 1];
    var open: Open := [];
    var before: seq<Step> := [];
    assert WorldOf([], Waiting, []) == START;
    if g != [] {
      before := ReadAll(id, g, now);
      open := [OpenSession(id, g, now)];
      assert open[0].id == id;
    }
    assert h == g + [b];
    assert Observe(open, id, b, now) == [OpenSession(id, h, now)];
    ReadingRefines(open, id, b, now);
    var w := WorldOf(open, Waiting, []);
    AtomicReading(w, id, b, now);
    RunsAppend(START, before, w, [Look(id, b), Write, Arm(now)], AfterReading(w, id, b, now));
    LooksAppend(before, [Look(id, b), Write, Arm(now)]);
    LooksOfReading(id, b, now);
    steps := before + [Look(id, b), Write, Arm(now)];
  }

  lemma {:induction false} LooksOfReading(id: string, slave: bool, now: int)
    ensures Looks([Look(id, slave), Write, Arm(now)]) == 1
  {
    LooksAppend([Look(id, slave)], [Write, Arm(now)]);
    LooksAppend([Write], [Arm(now)]);
    assert [Look(id, slave)] + [Write, Arm(now)] == [Look(id, slave), Write, Arm(now)];
    assert [Write] + [Arm(now)] == [Write, Arm(now)];
    assert [Look(id, slave)][..0] == [] && [Write][..0] == [] && [Arm(now)][..0] == [];
  }

  lemma {:induction false} ScanOfOne(s: OpenSession, now: int, timeout: int)
    requires now - s.lastSeen >= timeout
    ensures CheckTimers(Represent([s]), now, timeout) == (Represent([]), Report(s.id, VerdictOf(s.history)))
  {
    ScanRefines([s], now, timeout);
    assert [s][..0] == [];
    assert Survivors([s], now, timeout) == [] && Closing([s], now, timeout) == [s];
    assert ReportsBy([s], ReportOf) == ReportsBy([], ReportOf) + ReportOf(s) == ReportOf(s);
  }

  lemma {:induction false} ScanWorld(s: OpenSession, server: Server, notes: seq<Notification>, now: int, timeout: int)
    returns (steps: seq<Step>)
    requires now - s.lastSeen >= timeout
    ensures Runs(WorldOf([s], server, notes), steps, WorldOf([], server, notes + Report(s.id, VerdictOf(s.history))))
    ensures Looks(steps) == 0
  {
    steps := AtomicScan(WorldOf([s], server, notes), now, timeout);
    ScanOfOne(s, now, timeout);
  }

  lemma {:induction false} LookWorld(s: OpenSession, slave: bool, notes: seq<Notification>)
    ensures Runs(WorldOf([s], Waiting, notes), [Look(s.id, slave)],
                 WorldOf([s], Looked(s.id, slave, PackedState(s.history)), notes))
    ensures Looks([Look(s.id, slave)]) == 1
  {
    LookupOne(s);
    RunsOne(WorldOf([s], Waiting, notes), Look(s.id, slave));
    assert [Look(s.id, slave)][..0] == [];
  }

  lemma {:induction false} WriteWorld(id: string, h: History, slave: bool, now: int, notes: seq<Notification>)
    ensures Runs(WorldOf([], Looked(id, slave, PackedState(h)), notes), [Write, Arm(now)],
                 WorldOf([OpenSession(id, h + [slave], now)], Waiting, notes))
    ensures Looks([Write, Arm(now)]) == 0
  {
    var s := OpenSession(id, h + [slave], now);
    NextOfPacked(h, slave);
    StoreOne(s);
    EmptyWorld(Looked(id, slave, PackedState(h)), notes);
    WriteAndArm(id, slave, PackedState(h), PackedState(s.history), now, notes);
  }

  lemma {:induction false} NextOfPacked(h: History, slave: bool)
    ensures NextPacked(PackedState(h), slave) == PackedState(h + [slave])
  {
    PackedFollows(h, slave);
  }

  lemma {:induction false} EmptyWorld(server: Server, notes: seq<Notification>)
    ensures WorldOf([], server, notes) == World([], [], server, Resting, notes)
  {
  }

  lemma {:induction false} WriteAndArm(id: string, slave: bool, packed: int, next: int, now: int, notes: seq<Notification>)
    requires NextPacked(packed, slave) == next
    ensures Runs(World([], [], Looked(id, slave, packed), Resting, notes), [Write, Arm(now)],
                 World(Store([], id, next), Store([], id, now), Waiting, Resting, notes))
    ensures Looks([Write, Arm(now)]) == 0
  {
    var w := World([], [], Looked(id, slave, packed), Resting, notes);
    RunsOne(w, Write);
    RunsMore(w, [Write], Next(w, Write), Arm(now));
    assert [Write] + [Arm(now)] == [Write, Arm(now)];
    assert [Write, Arm(now)][..1] == [Write] && [Write][..0] == [];
  }

  lemma {:induction false} Join(w: World, a: seq<Step>, mid: World, b: seq<Step>, end: World) returns (steps: seq<Step>)
    requires Runs(w, a, mid) && Runs(mid, b, end)
    ensures Runs(w, steps, end) && Looks(steps) == Looks(a) + Looks(b)
  {
    RunsAppend(w, a, mid, b, end);
    LooksAppend(a, b);
    steps := a + b;
  }

  /** The write of a stale state: a student about to be reported is read once more while the scan
      reports it, and is reported again by a later scan. One crossing, two notifications: the
      atomic sessions do not survive this interleaving. */
  lemma {:induction false} StaleWriteReportsTwice(id: string, h: History, slave: bool,
                                                  t0: int, t1: int, t2: int, timeout: int)
    returns (steps: seq<Step>, end: World)
    requires h != [] && t1 - t0 >= timeout && t2 - t1 >= timeout
    ensures Runs(START, steps, end) && Looks(steps) == |h| + 1
    ensures end.notes == Report(id, VerdictOf(h)) + Report(id, VerdictOf(h + [slave]))
  {
    var s, longer := OpenSession(id, h, t0), OpenSession(id, h + [slave], t1);
    var stale := Looked(id, slave, PackedState(h));
    var once := [] + Report(id, VerdictOf(h));
    steps := ReadAll(id, h, t0);
    LookWorld(s, slave, []);
    steps := Join(START, steps, WorldOf([s], Waiting, []), [Look(id, slave)], WorldOf([s], stale, []));
    var scan := ScanWorld(s, stale, [], t1, timeout);
    steps := Join(START, steps, WorldOf([s], stale, []), scan, WorldOf([], stale, once));
    WriteWorld(id, h, slave, t1, once);
    steps := Join(START, steps, WorldOf([], stale, once), [Write, Arm(t1)], WorldOf([longer], Waiting, once));
    scan := ScanWorld(longer, Waiting, once, t2, timeout);
    end := WorldOf([], Waiting, once + Report(id, VerdictOf(h + [slave])));
    steps := Join(START, steps, WorldOf([longer], Waiting, once), scan, end);
  }

  lemma {:induction false} LookupOne(s: OpenSession)
    ensures Lookup(Represent([s]).students, s.id) == PackedState(s.history)
  {
    LookupFrom(Represent([s]).students, 0, s.id);
  }

  lemma {:induction false} StoreOne(s: OpenSession)
    ensures Tables(Store([], s.id, PackedState(s.history)), Store([], s.id, s.lastSeen)) == Represent([s])
  {
    StoreNew([], s.id, PackedState(s.history));
    StoreNew([], s.id, s.lastSeen);
    assert Represent([s]).students == [Pair(s.id, PackedState(s.history))];
    assert Represent([s]).timers == [Pair(s.id, s.lastSeen)];
  }

  /** Without a condition on the run the rate bound fails: seven readings, two notifications. */
  lemma {:induction false} RateBoundNeedsAtomicity(id: string) returns (steps: seq<Step>, end: World)
    ensures Runs(START, steps, end) && 6 * |end.notes| > Looks(steps)
  {
    var h := Repeat(true, 3) + Repeat(false, 3);
    steps, end := StaleWriteReportsTwice(id, h, false, 0, 60, 120, 60);
    CleanCrossing(true, 3, 3);
    ClassifyIsExact(h);
    CleanCrossing(true, 3, 4);
    ClassifyIsExact(h + [false]);
    assert h + [false] == Repeat(true, 3) + Repeat(false, 4);
  }
}
