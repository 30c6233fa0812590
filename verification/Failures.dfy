/** Runs in which a removal meets a reading of the same student, and what becomes of the reading.

    The third way for this to go wrong, a session reported twice, is StaleWriteReportsTwice in
    FineGrained.dfy. */
module Failures {
  import opened Dict
  import opened Session
  import opened Sessions
  import opened Accounting
  import opened FineGrained
  import opened Interleaved

  lemma {:induction false} AvoidsMore(w: World, steps: seq<Step>, mid: World, step: Step, bad: (World, Step) -> bool)
    requires Runs(w, steps, mid) && Avoids(w, steps, bad) && !bad(mid, step)
    ensures Avoids(w, steps + [step], bad)
    decreases |steps|
  {
    if steps == [] {
      assert steps + [step] == [step];
    } else {
      assert (steps + [step])[1..] == steps[1..] + [step];
      AvoidsMore(Next(w, steps[0]), steps[1..], mid, step, bad);
    }
  }

  lemma {:induction false} NoDropIsClean(w: World, steps: seq<Step>)
    requires forall step :: step in steps ==> !step.Drop?
    ensures Avoids(w, steps, Dirty)
    decreases |steps|
  {
    if steps != [] && Enabled(w, steps[0]) {
      assert steps[0] in steps;
      NoDropIsClean(Next(w, steps[0]), steps[1..]);
    }
  }

  lemma {:induction false} OneMore(w: World, steps: seq<Step>, mid: World, step: Step, end: World) returns (more: seq<Step>)
    requires Runs(w, steps, mid) && Enabled(mid, step) && Next(mid, step) == end
    ensures Runs(w, more, end) && Looks(more) == Looks(steps) + if step.Look? then 1 else 0
    ensures Avoids(w, steps, Dirty) && !Dirty(mid, step) ==> Avoids(w, more, Dirty)
  {
    RunsMore(w, steps, mid, step);
    if Avoids(w, steps, Dirty) && !Dirty(mid, step) { AvoidsMore(w, steps, mid, step, Dirty); }
    LooksAppend(steps, [step]);
    LooksFront(step, []);
    assert [step] + [] == [step];
    more := steps + [step];
  }

  // ----- a reading that is in no session -----

  /** A reading that is written between the get and the del of a scan: the del takes it away, and
      it is not judged. */
  lemma {:induction false} EraseUnjudged(id: string, p: int, q: int, slave: bool, t0: int, t1: int, t2: int, timeout: int)
    returns (steps: seq<Step>)
    requires t1 - t0 >= timeout && q == NextPacked(p, slave)
    ensures Runs(World([Pair(id, p)], [Pair(id, t0)], Waiting, Resting, []), steps,
                 World([], [Pair(id, t2)], Waiting, Resting, [] + JudgePacked(id, p)))
    ensures Looks(steps) == 1
  {
    var ss, ts, qs := [Pair(id, p)], [Pair(id, t0)], [Pair(id, q)];
    assert Keys(ss) == [id] + Keys([]) && ss[1..] == [] && ts[1..] == [] && ts[..0] == [];
    assert Store(ss, id, q) == qs && Erase(qs, id) == [] && Cut(ts, 0) == [] && Store([], id, t2) == [Pair(id, t2)];
    var w := World(ss, ts, Waiting, Resting, []);
    var reading, written := Looked(id, slave, p), Stored(id, slave);
    var walk, read := Walking(ts, 0, 0, t1, timeout), Read(ts, 0, 0, t1, timeout, p, true);
    var dropped := Dropped(ts, 0, 0, t1, timeout, p, true);
    steps := OneMore(w, [], w, Begin(t1, timeout), World(ss, ts, Waiting, walk, []));
    steps := OneMore(w, steps, World(ss, ts, Waiting, walk, []), Visit, World(ss, ts, Waiting, read, []));
    steps := OneMore(w, steps, World(ss, ts, Waiting, read, []), Look(id, slave), World(ss, ts, reading, read, []));
    steps := OneMore(w, steps, World(ss, ts, reading, read, []), Write, World(qs, ts, written, read, []));
    steps := OneMore(w, steps, World(qs, ts, written, read, []), Drop, World([], ts, written, dropped, []));
    steps := EraseRest(w, steps, id, slave, p, t0, t1, t2, timeout);
  }

  lemma {:induction false} EraseRest(w: World, before: seq<Step>, id: string, slave: bool, p: int,
                                     t0: int, t1: int, t2: int, timeout: int)
    returns (steps: seq<Step>)
    requires var ts := [Pair(id, t0)];
      Runs(w, before, World([], ts, Stored(id, slave), Dropped(ts, 0, 0, t1, timeout, p, true), []))
    ensures Runs(w, steps, World([], [Pair(id, t2)], Waiting, Resting, [] + JudgePacked(id, p)))
    ensures Looks(steps) == Looks(before) && (Avoids(w, before, Dirty) ==> Avoids(w, steps, Dirty))
  {
    var ts, written, notes := [Pair(id, t0)], Stored(id, slave), [] + JudgePacked(id, p);
    assert Cut(ts, 0) == [];
    var w0 := World([], ts, written, Dropped(ts, 0, 0, t1, timeout, p, true), []);
    var w1 := World([], [], written, Walking(ts, 1, 0, t1, timeout), notes);
    steps := OneMore(w, before, w0, Remove, w1);
    var w2 := World([], [], written, Resting, notes);
    steps := OneMore(w, steps, w1, End, w2);
    assert Keys([]) == [];
    steps := OneMore(w, steps, w2, Arm(t2), World([], [Pair(id, t2)], Waiting, Resting, notes));
  }

  /** For every history there is an interleaving with one more reading after which that reading is
      in no session: the student is reported without it, the stored state is gone, and only a timer
      is left. No run of the atomic merger ends with these tables. */
  lemma {:induction false} ReadingErased(id: string, h: History, slave: bool, t0: int, t1: int, t2: int, timeout: int)
    returns (steps: seq<Step>, end: World)
    requires h != [] && t1 - t0 >= timeout
    ensures Runs(START, steps, end) && Looks(steps) == |h| + 1 && Quiet(end)
    ensures end.students == [] && end.notes == Report(id, VerdictOf(h))
    ensures forall events :: MergerRun(Tables([], []), events).0 != Tables(end.students, end.timers)
  {
    var s := OpenSession(id, h, t0);
    steps := ReadAll(id, h, t0);
    StoreOne(s);
    var p, notes := PackedState(h), Report(id, VerdictOf(h));
    JudgeOfPacked(id, h);
    assert [] + notes == notes;
    var w := World([Pair(id, p)], [Pair(id, t0)], Waiting, Resting, []);
    assert w == WorldOf([s], Waiting, []);
    end := World([], [Pair(id, t2)], Waiting, Resting, notes);
    var more := EraseUnjudged(id, p, NextPacked(p, slave), slave, t0, t1, t2, timeout);
    steps := Join(START, steps, w, more, end);
    forall events ensures MergerRun(Tables([], []), events).0 != Tables(end.students, end.timers) {
      MergerRateBound(events);
    }
  }

  // ----- a session that is closed too early -----

  lemma {:induction false} WriteOne(w: World, before: seq<Step>, id: string, p: int, q: int, slave: bool, t0: int)
    returns (steps: seq<Step>)
    requires q == NextPacked(p, slave)
    requires Runs(w, before, World([Pair(id, p)], [Pair(id, t0)], Waiting, Resting, [])) && Avoids(w, before, Dirty)
    ensures Runs(w, steps, World([Pair(id, q)], [Pair(id, t0)], Stored(id, slave), Resting, []))
    ensures Looks(steps) == Looks(before) + 1 && Avoids(w, steps, Dirty)
  {
    var ss, ts, qs := [Pair(id, p)], [Pair(id, t0)], [Pair(id, q)];
    assert Keys(ss) == [id] + Keys([]) && ss[1..] == [] && Store(ss, id, q) == qs;
    var reading, written := Looked(id, slave, p), Stored(id, slave);
    steps := OneMore(w, before, World(ss, ts, Waiting, Resting, []), Look(id, slave), World(ss, ts, reading, Resting, []));
    steps := OneMore(w, steps, World(ss, ts, reading, Resting, []), Write, World(qs, ts, written, Resting, []));
  }

  /** A reading that is written before the scan looks and whose timer is set after it: the scan goes
      by the old timer and judges the new state. */
  lemma {:induction false} CutShort(w: World, before: seq<Step>, id: string, q: int, slave: bool,
                                    t0: int, t1: int, t2: int, timeout: int)
    returns (steps: seq<Step>)
    requires t1 - t0 >= timeout && Avoids(w, before, Dirty)
    requires Runs(w, before, World([Pair(id, q)], [Pair(id, t0)], Stored(id, slave), Resting, []))
    ensures Runs(w, steps, World([], [Pair(id, t2)], Waiting, Resting, [] + JudgePacked(id, q)))
    ensures Looks(steps) == Looks(before) && Avoids(w, steps, Dirty)
  {
    var ts, qs, written := [Pair(id, t0)], [Pair(id, q)], Stored(id, slave);
    assert Erase(qs, id) == [] && Lookup(qs, id) == q && Keys(qs) == [id] + Keys([]);
    var walk, read := Walking(ts, 0, 0, t1, timeout), Read(ts, 0, 0, t1, timeout, q, true);
    var dropped := Dropped(ts, 0, 0, t1, timeout, q, true);
    steps := OneMore(w, before, World(qs, ts, written, Resting, []), Begin(t1, timeout), World(qs, ts, written, walk, []));
    steps := OneMore(w, steps, World(qs, ts, written, walk, []), Visit, World(qs, ts, written, read, []));
    steps := OneMore(w, steps, World(qs, ts, written, read, []), Drop, World([], ts, written, dropped, []));
    steps := EraseRest(w, steps, id, slave, q, t0, t1, t2, timeout);
  }

  lemma {:induction false} StartsAfreshBy(id: string, last: int, slave: bool, now: int, next: (int, bool) -> int)
    ensures HandleBy(Tables([], [Pair(id, last)]), id, slave, now, next)
         == Tables([Pair(id, next(0, slave))], [Pair(id, now)])
  {
    assert Keys([Pair(id, last)]) == [id] + Keys([]) && [Pair(id, last)][1..] == [];
  }

  lemma {:induction false} StartsAfresh(id: string, last: int, slave: bool, now: int)
    ensures HandleStudent(Tables([], [Pair(id, last)]), id, slave, now) == Represent([OpenSession(id, [slave], now)])
  {
    StartsAfreshBy(id, last, slave, now, NextPacked);
    PackedIsFaithful();
    FirstPacked(slave, PackedState);
    var t := Represent([OpenSession(id, [slave], now)]);
    assert t.students == [Pair(id, PackedState([slave]))] && t.timers == [Pair(id, now)];
  }

  lemma {:induction false} FirstPacked(slave: bool, pack: History -> int)
    requires Faithful(pack)
    ensures NextPacked(0, slave) == pack([slave])
  {
    assert pack([]) == 0 && [] + [slave] == [slave];
    assert NextPacked(pack([]), slave) == pack([] + [slave]);
  }

  /** For every history there is an interleaving in which no removal is dirty, every reading is in a
      reported session, and yet the session is closed too early: its timer is set anew at t2, but no
      state is left, and the next reading starts another session however soon after t2 it comes. No
      run of the atomic merger ends with these tables. */
  lemma {:induction false} SessionCutShort(id: string, h: History, slave: bool, t0: int, t1: int, t2: int, timeout: int)
    returns (steps: seq<Step>, end: World)
    requires h != [] && t1 - t0 >= timeout
    ensures Runs(START, steps, end) && Avoids(START, steps, Dirty) && Looks(steps) == |h| + 1 && Quiet(end)
    ensures end.students == [] && end.timers == [Pair(id, t2)] && end.notes == Report(id, VerdictOf(h + [slave]))
    ensures forall next, t :: HandleStudent(Tables(end.students, end.timers), id, next, t)
                           == Represent([OpenSession(id, [next], t)])
    ensures forall events :: MergerRun(Tables([], []), events).0 != Tables(end.students, end.timers)
  {
    var s := OpenSession(id, h, t0);
    var before := ReadAll(id, h, t0);
    StoreOne(s);
    NoDropIsClean(START, before);
    var p, q, notes := PackedState(h), PackedState(h + [slave]), Report(id, VerdictOf(h + [slave]));
    NextOfPacked(h, slave);
    JudgeOfPacked(id, h + [slave]);
    assert [] + notes == notes;
    assert World([Pair(id, p)], [Pair(id, t0)], Waiting, Resting, []) == WorldOf([s], Waiting, []);
    steps := WriteOne(START, before, id, p, q, slave, t0);
    steps := CutShort(START, steps, id, q, slave, t0, t1, t2, timeout);
    end := World([], [Pair(id, t2)], Waiting, Resting, notes);
    forall next, t
      ensures HandleStudent(Tables(end.students, end.timers), id, next, t) == Represent([OpenSession(id, [next], t)])
    {
      StartsAfresh(id, t2, next, t);
    }
    forall events ensures MergerRun(Tables([], []), events).0 != Tables(end.students, end.timers) {
      MergerRateBound(events);
    }
  }
}
