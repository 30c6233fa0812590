/** What the interleaved threads keep, and what they lose, when a scan removes a student.

    The missing lock lets three things go wrong there. A removal that meets a reading of the same
    student between its get and its set lets a stale state come back. A removal of another state
    than the scan has judged lets a reading disappear. And a reading whose timer is not yet set
    is judged by its old timer, so its session ends too early. Runs without the first keep every
    stored state a true history, and with it the rate bound; in runs without the first two, every
    reading is in exactly one session. Failures.dfy has the runs in which they go wrong, Atomicity.dfy
    the condition that excludes all three. */
module Interleaved {
  import opened Dict
  import opened Session
  import opened Sessions
  import opened Accounting
  import opened FineGrained

  /** No step of the run is a bad one. */
  ghost predicate Avoids(w: World, steps: seq<Step>, bad: (World, Step) -> bool)
    decreases |steps|
  {
    steps != [] && Enabled(w, steps[0]) ==> !bad(w, steps[0]) && Avoids(Next(w, steps[0]), steps[1..], bad)
  }

  /** The student the scan is about to remove. */
  function Picked(w: World): string {
    if !w.scanner.Resting? && w.scanner.at < |w.timers| then w.timers[w.scanner.at].key else ""
  }

  /** The removal of a stored student while the server is between its get and its set for it. */
  predicate Clash(w: World, step: Step) {
    step.Drop? && w.server.Looked? && w.server.id == Picked(w) && Picked(w) in Keys(w.students)
  }

  /** A removal that clashes, or removes another state than the scan has judged. */
  predicate Dirty(w: World, step: Step) {
    Clash(w, step) || (step.Drop? && w.scanner.Read? && w.scanner.packed != Lookup(w.students, Picked(w)))
  }

  /** No reading and no scan is under way. */
  predicate Quiet(w: World) { w.server.Waiting? && w.scanner.Resting? }

  // ----- sessions without the removed one -----

  function Leave(open: Open, id: string): Open {
    if open == [] then [] else if open[0].id == id then open[1..] else [open[0]] + Leave(open[1..], id)
  }

  lemma {:induction false} LeaveErases(open: Open, id: string, pack: History -> int)
    ensures RepresentBy(Leave(open, id), pack).students == Erase(RepresentBy(open, pack).students, id)
  {
    if open != [] {
      var s, rest := open[0], open[1..];
      assert open == [s] + rest;
      RepresentFront(rest, s, pack);
      var r := RepresentBy(rest, pack).students;
      assert ([Pair(s.id, pack(s.history))] + r)[1..] == r;
      if s.id != id {
        LeaveErases(rest, id, pack);
        RepresentFront(Leave(rest, id), s, pack);
      }
    }
  }

  lemma {:induction false} LeaveSubset(open: Open, id: string)
    ensures forall s :: s in Leave(open, id) ==> s in open
    ensures DistinctIds(open) ==> DistinctIds(Leave(open, id))
  {
    if open != [] && open[0].id != id {
      var rest := open[1..];
      LeaveSubset(rest, id);
      assert open == [open[0]] + rest;
      if DistinctIds(open) {
        var l := Leave(rest, id);
        forall j | 0 <= j < |l| ensures l[j].id != open[0].id {
          assert l[j] in rest;
        }
      }
    }
  }

  lemma {:induction false} LeaveHistory(open: Open, id: string, other: string)
    requires DistinctIds(open)
    ensures HistoryOf(Leave(open, id), other) == if other == id then [] else HistoryOf(open, other)
  {
    if open != [] {
      var s, rest := open[0], open[1..];
      if s.id == id {
        assert !IsOpen(rest, id);
        NoHistory(rest, id);
      } else {
        LeaveHistory(rest, id, other);
        assert ([s] + Leave(rest, id))[1..] == Leave(rest, id);
      }
    }
  }

  lemma {:induction false} LeaveHeld(open: Open, id: string)
    ensures Held(Leave(open, id)) + |HistoryOf(open, id)| == Held(open)
  {
    if open != [] {
      var s, rest := open[0], open[1..];
      assert open == [s] + rest;
      HeldAppend([s], rest);
      HeldOne(s);
      if s.id != id {
        LeaveHeld(rest, id);
        HeldAppend([s], Leave(rest, id));
      }
    }
  }

  /** A stored state is the packing of the student's history; a missing one is 0. */
  lemma {:induction false} LookupHistory(open: Open, id: string, pack: History -> int)
    requires DistinctIds(open) && pack([]) == 0
    ensures Lookup(RepresentBy(open, pack).students, id) == pack(HistoryOf(open, id))
  {
    if IsOpen(open, id) {
      var i :| 0 <= i < |open| && open[i].id == id;
      HistoryAt(open, i);
      LookupFrom(RepresentBy(open, pack).students, i, id);
    } else {
      NoHistory(open, id);
      assert forall j :: 0 <= j < |open| ==> open[j].id != id;
      LookupFrom(RepresentBy(open, pack).students, |open|, id);
    }
  }

  // ----- the books -----

  ghost predicate NoEmptyHistory(open: Open) {
    forall s :: s in open ==> s.history != []
  }

  /** Every stored state is the packing of a history, and a state looked up for a reading is still
      the packing of that student's history. */
  ghost predicate Booked(w: World, open: Open, pack: History -> int) {
    && DistinctIds(open) && NoEmptyHistory(open)
    && w.students == RepresentBy(open, pack).students
    && (w.server.Looked? ==> w.server.packed == pack(HistoryOf(open, w.server.id)))
  }

  /** The sessions after a step; times are not kept. */
  function After(w: World, open: Open, step: Step): Open
    requires Enabled(w, step)
  {
    match step
    case Write => Observe(open, w.server.id, w.server.slave, 0)
    case Drop => Leave(open, Picked(w))
    case _ => open
  }

  /** The packing tells the empty history from all others, can be extended, and can be judged. */
  ghost predicate Faithful(pack: History -> int) {
    && (forall h :: pack(h) == 0 <==> h == [])
    && (forall h, slave :: NextPacked(pack(h), slave) == pack(h + [slave]))
    && (forall id, h :: JudgePacked(id, pack(h)) == Report(id, VerdictOf(h)))
  }

  lemma {:induction false} PackedIsFaithful()
    ensures Faithful(PackedState)
  {
    forall h ensures PackedState(h) == 0 <==> h == [] {
      if h == [] {
        EmptyPacksToZero();
      } else if PackedState(h) == 0 {
        CountOf(h);
        ZeroPack(StateAfter(h));
      }
    }
    forall h, slave ensures NextPacked(PackedState(h), slave) == PackedState(h + [slave]) {
      NextOfPacked(h, slave);
    }
    forall id, h ensures JudgePacked(id, PackedState(h)) == Report(id, VerdictOf(h)) {
      JudgeOfPacked(id, h);
    }
  }

  lemma {:induction false} JudgeOfPacked(id: string, h: History)
    ensures JudgePacked(id, PackedState(h)) == Report(id, VerdictOf(h))
  {
    UnpackPack(StateAfter(h));
    ClassifyIsExact(h);
  }

  lemma {:induction false} EmptyPacksToZero()
    ensures PackedState([]) == 0
  {
  }

  lemma {:induction false} CountOf(h: History)
    ensures StateAfter(h).master + StateAfter(h).slave == |First(h)|
  {
    StateIsExact(h);
  }

  lemma {:induction false} ZeroPack(s: State)
    requires FitsBitFields(s) && Pack(s) == 0
    ensures s.master + s.slave == 0
  {
  }

  lemma {:induction false} SamePack(s: State, t: State)
    requires FitsBitFields(s) && FitsBitFields(t) && Pack(s) == Pack(t)
    ensures s == t
  {
    UnpackPack(s);
    UnpackPack(t);
  }

  lemma {:induction false} LookBooks(w: World, open: Open, id: string, slave: bool, pack: History -> int)
    requires Booked(w, open, pack) && w.server.Waiting? && Faithful(pack)
    ensures Booked(Next(w, Look(id, slave)), open, pack)
  {
    assert pack([]) == 0;
    LookupHistory(open, id, pack);
  }

  lemma {:induction false} StoreHistory(open: Open, id: string, slave: bool, pack: History -> int, next: int)
    requires DistinctIds(open) && next == pack(HistoryOf(open, id) + [slave])
    ensures Store(RepresentBy(open, pack).students, id, next) == RepresentBy(Observe(open, id, slave, 0), pack).students
  {
    if IsOpen(open, id) {
      var i :| 0 <= i < |open| && open[i].id == id;
      HistoryAt(open, i);
      StoreOpen(open, i, slave, 0, pack);
    } else {
      NoHistory(open, id);
      StoreNewcomer(open, id, slave, 0, pack);
      assert [] + [slave] == [slave];
    }
  }

  lemma {:induction false} WriteBooks(w: World, open: Open, pack: History -> int)
    requires Booked(w, open, pack) && w.server.Looked? && Faithful(pack)
    ensures Booked(Next(w, Write), Observe(open, w.server.id, w.server.slave, 0), pack)
  {
    var id, slave := w.server.id, w.server.slave;
    StoreHistory(open, id, slave, pack, NextPacked(w.server.packed, slave));
    ObserveDistinct(open, id, slave, 0);
    ObserveNonempty(open, id, slave);
  }

  lemma {:induction false} ObserveNonempty(open: Open, id: string, slave: bool)
    requires NoEmptyHistory(open)
    ensures NoEmptyHistory(Observe(open, id, slave, 0))
  {
    var next := Observe(open, id, slave, 0);
    forall i | 0 <= i < |next| ensures next[i].history != [] {
      if IsOpen(open, id) {
        assert open[i] in open;
      } else if i > 0 {
        assert next[i] == open[i - 1] && open[i - 1] in open;
      }
    }
  }

  /** A stored student has readings. */
  lemma {:induction false} StoredHasReadings(open: Open, id: string)
    requires DistinctIds(open) && NoEmptyHistory(open)
    ensures IsOpen(open, id) <==> HistoryOf(open, id) != []
  {
    if IsOpen(open, id) {
      var i :| 0 <= i < |open| && open[i].id == id;
      HistoryAt(open, i);
      assert open[i] in open;
    } else {
      NoHistory(open, id);
    }
  }

  /** Without a student, the state looked up for a reading survives unless that student had one. */
  lemma {:induction false} LookedSurvives(open: Open, key: string, id: string, packed: int, pack: History -> int)
    requires DistinctIds(open) && NoEmptyHistory(open) && packed == pack(HistoryOf(open, id)) && Faithful(pack)
    ensures packed == pack(HistoryOf(Leave(open, key), id)) <==> !(id == key && IsOpen(open, key))
  {
    LeaveHistory(open, key, id);
    StoredHasReadings(open, key);
    assert pack([]) == 0;
  }

  /** A removal keeps the books if and only if it does not clash. */
  lemma {:induction false} DropKeepsBooksIff(w: World, open: Open, pack: History -> int)
    requires Booked(w, open, pack) && Enabled(w, Drop) && Faithful(pack)
    ensures Booked(Next(w, Drop), Leave(open, Picked(w)), pack) <==> !Clash(w, Drop)
  {
    LeaveErases(open, Picked(w), pack);
    LeaveSubset(open, Picked(w));
    RepresentKeys(open, pack);
    if w.server.Looked? {
      LookedSurvives(open, Picked(w), w.server.id, w.server.packed, pack);
    }
  }

  lemma {:induction false} StepBooks(w: World, open: Open, step: Step, pack: History -> int)
    requires Booked(w, open, pack) && Enabled(w, step) && !Clash(w, step) && Faithful(pack)
    ensures Booked(Next(w, step), After(w, open, step), pack)
  {
    match step {
      case Look(id, slave) => LookBooks(w, open, id, slave, pack);
      case Write => WriteBooks(w, open, pack);
      case Drop => DropKeepsBooksIff(w, open, pack);
      case _ =>
    }
  }

  /** The books are kept all along a run. */
  ghost predicate AlwaysBooked(w: World, open: Open, steps: seq<Step>, pack: History -> int)
    decreases |steps|
  {
    && Booked(w, open, pack)
    && (steps != [] && Enabled(w, steps[0]) ==> AlwaysBooked(Next(w, steps[0]), After(w, open, steps[0]), steps[1..], pack))
  }

  lemma {:induction false} BookedIff(w: World, open: Open, steps: seq<Step>, pack: History -> int)
    requires Booked(w, open, pack) && Faithful(pack)
    ensures AlwaysBooked(w, open, steps, pack) <==> Avoids(w, steps, Clash)
    decreases |steps|
  {
    if steps != [] && Enabled(w, steps[0]) {
      if Clash(w, steps[0]) {
        DropKeepsBooksIff(w, open, pack);
      } else {
        StepBooks(w, open, steps[0], pack);
        BookedIff(Next(w, steps[0]), After(w, open, steps[0]), steps[1..], pack);
      }
    }
  }

  /** At every point of a run each stored state is the packing of the student's readings since the
      last removal, and the state looked up for a reading still is, if and only if no removal in the
      run clashes. */
  lemma {:induction false} BooksAreKeptIff(steps: seq<Step>)
    ensures AlwaysBooked(START, [], steps, PackedState) <==> Avoids(START, steps, Clash)
  {
    PackedIsFaithful();
    BookedIff(START, [], steps, PackedState);
  }

  // ----- the stored states alone -----

  /** At every point of a run the stored states are the packings of the sessions. */
  ghost predicate AlwaysStored(w: World, open: Open, steps: seq<Step>, pack: History -> int)
    decreases |steps|
  {
    && w.students == RepresentBy(open, pack).students
    && (steps != [] && Enabled(w, steps[0]) ==> AlwaysStored(Next(w, steps[0]), After(w, open, steps[0]), steps[1..], pack))
  }

  lemma {:induction false} BookedIsStored(w: World, open: Open, steps: seq<Step>, pack: History -> int)
    requires AlwaysBooked(w, open, steps, pack)
    ensures AlwaysStored(w, open, steps, pack)
    decreases |steps|
  {
    if steps != [] && Enabled(w, steps[0]) {
      BookedIsStored(Next(w, steps[0]), After(w, open, steps[0]), steps[1..], pack);
    }
  }

  /** A longer history is not packed as the one that holds just its last reading. */
  ghost predicate Remembers(pack: History -> int) {
    forall h, slave :: h != [] ==> pack(h + [slave]) != pack([slave])
  }

  lemma {:induction false} PackedRemembers()
    ensures Remembers(PackedState)
  {
    forall h: History, slave | h != [] ensures PackedState(h + [slave]) != PackedState([slave]) {
      CountOf(h + [slave]);
      CountOf([slave]);
      if PackedState(h + [slave]) == PackedState([slave]) { SamePack(StateAfter(h + [slave]), StateAfter([slave])); }
    }
  }

  /** The server holds the state of a session that was removed since. */
  ghost predicate Stale(w: World, open: Open, h: History, pack: History -> int) {
    DistinctIds(open) && h != [] && w.server.Looked? && w.server.packed == pack(h) && !IsOpen(open, w.server.id)
  }

  lemma {:induction false} StaleWriteShows(w: World, open: Open, h: History, pack: History -> int)
    requires Stale(w, open, h, pack) && Faithful(pack) && Remembers(pack)
    requires w.students == RepresentBy(open, pack).students
    ensures Next(w, Write).students != RepresentBy(After(w, open, Write), pack).students
  {
    var id, slave := w.server.id, w.server.slave;
    assert NextPacked(pack(h), slave) == pack(h + [slave]);
    assert forall j :: 0 <= j < |open| ==> open[j].id != id;
    StoreNew(w.students, id, pack(h + [slave]));
    assert RepresentBy([OpenSession(id, [slave], 0)] + open, pack).students[0] == Pair(id, pack([slave]));
  }

  lemma {:induction false} StaleShows(w: World, open: Open, h: History, steps: seq<Step>, end: World, pack: History -> int)
    requires Stale(w, open, h, pack) && Faithful(pack) && Remembers(pack)
    requires Runs(w, steps, end) && !end.server.Looked? && AlwaysStored(w, open, steps, pack)
    ensures false
    decreases |steps|
  {
    var step := steps[0];
    if step.Write? {
      StaleWriteShows(w, open, h, pack);
    } else {
      if step.Drop? {
        LeaveSubset(open, Picked(w));
        NotAfter(open, Leave(open, Picked(w)), w.server.id);
      }
      StaleShows(Next(w, step), After(w, open, step), h, steps[1..], end, pack);
    }
  }

  lemma {:induction false} ClashIsStale(w: World, open: Open, pack: History -> int)
    requires Booked(w, open, pack) && Enabled(w, Drop) && Clash(w, Drop)
    ensures Stale(Next(w, Drop), Leave(open, Picked(w)), HistoryOf(open, Picked(w)), pack)
  {
    var left := Leave(open, Picked(w));
    RepresentKeys(open, pack);
    StoredHasReadings(open, Picked(w));
    LeaveSubset(open, Picked(w));
    LeaveHistory(open, Picked(w), Picked(w));
    assert NoEmptyHistory(left);
    StoredHasReadings(left, Picked(w));
  }

  lemma {:induction false} StoredAvoids(w: World, open: Open, steps: seq<Step>, end: World, pack: History -> int)
    requires Booked(w, open, pack) && Faithful(pack) && Remembers(pack)
    requires Runs(w, steps, end) && !end.server.Looked? && AlwaysStored(w, open, steps, pack)
    ensures Avoids(w, steps, Clash)
    decreases |steps|
  {
    if steps != [] {
      var step, next, after := steps[0], Next(w, steps[0]), After(w, open, steps[0]);
      if Clash(w, step) {
        ClashIsStale(w, open, pack);
        StaleShows(next, after, HistoryOf(open, Picked(w)), steps[1..], end, pack);
      } else {
        StepBooks(w, open, step, pack);
        StoredAvoids(next, after, steps[1..], end, pack);
      }
    }
  }

  /** At every point of a run that ends with its last reading written, each stored state is the
      packing of the student's readings since the last removal, if and only if no removal in the run
      meets a reading of the same student between its get and its set. */
  lemma {:induction false} StatesAreHistoriesIff(steps: seq<Step>, end: World)
    requires Runs(START, steps, end) && !end.server.Looked?
    ensures AlwaysStored(START, [], steps, PackedState) <==> Avoids(START, steps, Clash)
  {
    PackedIsFaithful();
    PackedRemembers();
    BookedIff(START, [], steps, PackedState);
    if Avoids(START, steps, Clash) { BookedIsStored(START, [], steps, PackedState); }
    if AlwaysStored(START, [], steps, PackedState) { StoredAvoids(START, [], steps, end, PackedState); }
  }

  // ----- what is judged -----

  /** Besides, what a scan judges after a removal is the whole history that was removed. */
  ghost predicate Exact(w: World, open: Open, gone: History, pack: History -> int) {
    Booked(w, open, pack) && (w.scanner.Dropped? ==> w.scanner.packed == pack(gone))
  }

  function Gone(w: World, open: Open, gone: History, step: Step): History {
    if step.Drop? then HistoryOf(open, Picked(w)) else gone
  }

  ghost predicate AlwaysExact(w: World, open: Open, gone: History, steps: seq<Step>, pack: History -> int)
    decreases |steps|
  {
    && Exact(w, open, gone, pack)
    && (steps != [] && Enabled(w, steps[0]) ==>
          AlwaysExact(Next(w, steps[0]), After(w, open, steps[0]), Gone(w, open, gone, steps[0]), steps[1..], pack))
  }

  lemma {:induction false} StepExactIff(w: World, open: Open, gone: History, step: Step, pack: History -> int)
    requires Exact(w, open, gone, pack) && Enabled(w, step) && Faithful(pack)
    ensures Exact(Next(w, step), After(w, open, step), Gone(w, open, gone, step), pack) <==> !Dirty(w, step)
  {
    if step.Drop? {
      DropKeepsBooksIff(w, open, pack);
      assert pack([]) == 0;
      LookupHistory(open, Picked(w), pack);
    } else {
      StepBooks(w, open, step, pack);
    }
  }

  lemma {:induction false} ExactIff(w: World, open: Open, gone: History, steps: seq<Step>, pack: History -> int)
    requires Exact(w, open, gone, pack) && Faithful(pack)
    ensures AlwaysExact(w, open, gone, steps, pack) <==> Avoids(w, steps, Dirty)
    decreases |steps|
  {
    if steps != [] && Enabled(w, steps[0]) {
      StepExactIff(w, open, gone, steps[0], pack);
      if !Dirty(w, steps[0]) {
        ExactIff(Next(w, steps[0]), After(w, open, steps[0]), Gone(w, open, gone, steps[0]), steps[1..], pack);
      }
    }
  }

  /** And at every point of a run what a scan is about to report is the whole history it removed, if
      and only if no removal in the run is dirty. */
  lemma {:induction false} JudgedAreHistoriesIff(steps: seq<Step>)
    ensures AlwaysExact(START, [], [], steps, PackedState) <==> Avoids(START, steps, Dirty)
  {
    PackedIsFaithful();
    ExactIff(START, [], [], steps, PackedState);
  }

  // ----- the rate bound -----

  /** What the scan has read is the packing of `picked`, a history no longer than the student's own
      while that student is still stored. */
  ghost predicate ReadBy(w: World, open: Open, picked: History, pack: History -> int) {
    && (w.scanner.Read? ==> w.scanner.packed == pack(picked) && |picked| <= |HistoryOf(open, Picked(w))|)
    && (w.scanner.Dropped? ==> w.scanner.packed == pack(picked))
  }

  /** Six readings are spent for every notification; those held, judged or on their way are not. */
  predicate Spent(w: World, open: Open, picked: History, looks: nat) {
    6 * |w.notes| + Held(open) + (if w.scanner.Dropped? then |picked| else 0) + (if w.server.Looked? then 1 else 0) <= looks
  }

  /** The history the scan has picked, after a step. */
  function PickedAfter(w: World, open: Open, picked: History, step: Step): History {
    if step.Visit? then HistoryOf(open, Picked(w)) else picked
  }

  lemma {:induction false} ReportCost(id: string, h: History)
    ensures 6 * |Report(id, VerdictOf(h))| <= |h|
  {
  }

  lemma {:induction false} ObserveGrows(open: Open, id: string, slave: bool, other: string)
    requires DistinctIds(open)
    ensures |HistoryOf(open, other)| <= |HistoryOf(Observe(open, id, slave, 0), other)|
    ensures Held(Observe(open, id, slave, 0)) == Held(open) + 1
  {
    ObserveHistory(open, id, slave, 0, other);
    ObserveHeld(open, id, slave, 0);
  }

  lemma {:induction false} StepReadBy(w: World, open: Open, picked: History, step: Step, pack: History -> int)
    requires Booked(w, open, pack) && ReadBy(w, open, picked, pack) && Enabled(w, step) && Faithful(pack)
    ensures ReadBy(Next(w, step), After(w, open, step), PickedAfter(w, open, picked, step), pack)
  {
    match step {
      case Write => ObserveGrows(open, w.server.id, w.server.slave, Picked(w));
      case Visit => LookupHistory(open, Picked(w), pack);
      case _ =>
    }
  }

  lemma {:induction false} StepSpent(w: World, open: Open, picked: History, looks: nat, step: Step)
    requires DistinctIds(open) && Enabled(w, step) && Spent(w, open, picked, looks)
    requires w.scanner.Read? ==> |picked| <= |HistoryOf(open, Picked(w))|
    requires step.Remove? ==> 6 * |JudgePacked(Picked(w), w.scanner.packed)| <= |picked|
    ensures Spent(Next(w, step), After(w, open, step), PickedAfter(w, open, picked, step),
                  looks + if step.Look? then 1 else 0)
  {
    match step {
      case Write => ObserveGrows(open, w.server.id, w.server.slave, "");
      case Drop => LeaveHeld(open, Picked(w));
      case _ =>
    }
  }

  ghost predicate Tracked(w: World, open: Open, picked: History, looks: nat, pack: History -> int) {
    Booked(w, open, pack) && ReadBy(w, open, picked, pack) && Spent(w, open, picked, looks)
  }

  lemma {:induction false} StepTracked(w: World, open: Open, picked: History, looks: nat, step: Step, pack: History -> int)
    requires Tracked(w, open, picked, looks, pack) && Enabled(w, step) && !Clash(w, step) && Faithful(pack)
    ensures Tracked(Next(w, step), After(w, open, step), PickedAfter(w, open, picked, step),
                    looks + (if step.Look? then 1 else 0), pack)
  {
    StepBooks(w, open, step, pack);
    StepReadBy(w, open, picked, step, pack);
    ReportCost(Picked(w), picked);
    StepSpent(w, open, picked, looks, step);
  }

  lemma {:induction false} RateFrom(w: World, open: Open, picked: History, looks: nat, steps: seq<Step>, end: World,
                                    pack: History -> int)
    returns (left: Open)
    requires Tracked(w, open, picked, looks, pack) && Runs(w, steps, end) && Avoids(w, steps, Clash) && Faithful(pack)
    ensures Booked(end, left, pack) && 6 * |end.notes| + Held(left) <= looks + Looks(steps)
    decreases |steps|
  {
    if steps == [] {
      left := open;
    } else {
      var step, rest := steps[0], steps[1..];
      StepTracked(w, open, picked, looks, step, pack);
      left := RateFrom(Next(w, step), After(w, open, step), PickedAfter(w, open, picked, step),
                       looks + (if step.Look? then 1 else 0), rest, end, pack);
      LooksFront(step, rest);
      assert steps == [step] + rest;
    }
  }

  lemma {:induction false} LooksFront(step: Step, rest: seq<Step>)
    ensures Looks([step] + rest) == (if step.Look? then 1 else 0) + Looks(rest)
  {
    LooksAppend([step], rest);
    assert [step][..0] == [];
  }

  /** Unless a removal clashes with a reading, the rate bound holds in every interleaving: six
      readings are spent for each notification, on top of those held in the stored states. */
  lemma {:induction false} RateBoundUnlessClash(steps: seq<Step>, end: World) returns (open: Open)
    requires Runs(START, steps, end) && Avoids(START, steps, Clash)
    ensures Booked(end, open, PackedState) && 6 * |end.notes| + Held(open) <= Looks(steps)
  {
    PackedIsFaithful();
    open := RateFrom(START, [], [], 0, steps, end, PackedState);
  }

  // ----- every reading is in exactly one session -----

  /** The session a step closes, with the whole history then stored. */
  function ClosedAt(w: World, open: Open, step: Step): Open {
    if step.Drop? && IsOpen(open, Picked(w)) then [OpenSession(Picked(w), HistoryOf(open, Picked(w)), 0)] else []
  }

  /** The sessions closed during a run, in order. */
  function ClosedOver(w: World, open: Open, steps: seq<Step>): Open
    decreases |steps|
  {
    if steps == [] || !Enabled(w, steps[0]) then [] else
      ClosedAt(w, open, steps[0]) + ClosedOver(Next(w, steps[0]), After(w, open, steps[0]), steps[1..])
  }

  /** The sessions still open after a run. */
  function OpenAfter(w: World, open: Open, steps: seq<Step>): Open
    decreases |steps|
  {
    if steps == [] || !Enabled(w, steps[0]) then open else
      OpenAfter(Next(w, steps[0]), After(w, open, steps[0]), steps[1..])
  }

  function LookBy(step: Step, id: string): History {
    if step.Look? && step.id == id then [step.slave] else []
  }

  /** The readings of `id` handled in a run, in order. */
  function LooksOf(steps: seq<Step>, id: string): History {
    if steps == [] then [] else LookBy(steps[0], id) + LooksOf(steps[1..], id)
  }

  /** The reading of `id` that is looked up and not yet written. */
  function Pending(w: World, id: string): History {
    if w.server.Looked? && w.server.id == id then [w.server.slave] else []
  }

  /** The notification of the session that is removed but not yet reported. */
  function Judging(w: World): seq<Notification> {
    if w.scanner.Dropped? then JudgePacked(Picked(w), w.scanner.packed) else []
  }

  lemma {:induction false} StepKeepsReadings(w: World, open: Open, step: Step, id: string)
    requires DistinctIds(open) && Enabled(w, step)
    ensures (HistoryOf(open, id) + Pending(w, id)) + LookBy(step, id)
         == HistoriesOf(ClosedAt(w, open, step), id) + (HistoryOf(After(w, open, step), id) + Pending(Next(w, step), id))
  {
    match step {
      case Write => ObserveHistory(open, w.server.id, w.server.slave, 0, id);
      case Drop => DropKeepsReadings(open, Picked(w), id);
      case _ =>
    }
  }

  lemma {:induction false} DropKeepsReadings(open: Open, key: string, id: string)
    requires DistinctIds(open)
    ensures HistoryOf(open, id)
         == HistoriesOf(if IsOpen(open, key) then [OpenSession(key, HistoryOf(open, key), 0)] else [], id)
          + HistoryOf(Leave(open, key), id)
  {
    LeaveHistory(open, key, id);
    if IsOpen(open, key) {
      HistoriesSnoc([], OpenSession(key, HistoryOf(open, key), 0), id);
      assert [] + [OpenSession(key, HistoryOf(open, key), 0)] == [OpenSession(key, HistoryOf(open, key), 0)];
    } else {
      NoHistory(open, key);
    }
  }

  lemma {:induction false} ReportOfOne(s: OpenSession)
    ensures Reports([s]) == ReportOf(s)
  {
    assert [s][..0] == [];
    assert ReportsBy([s], ReportOf) == ReportsBy([], ReportOf) + ReportOf(s);
  }

  lemma {:induction false} StepKeepsReports(w: World, open: Open, step: Step, pack: History -> int)
    requires Booked(w, open, pack) && Enabled(w, step) && !Dirty(w, step) && Faithful(pack)
    ensures Next(w, step).notes + Judging(Next(w, step)) == (w.notes + Judging(w)) + Reports(ClosedAt(w, open, step))
  {
    if step.Drop? {
      var key, h := Picked(w), HistoryOf(open, Picked(w));
      assert pack([]) == 0;
      LookupHistory(open, key, pack);
      if IsOpen(open, key) {
        ReportOfOne(OpenSession(key, h, 0));
      } else {
        NoHistory(open, key);
      }
      assert w.notes + [] == w.notes;
    }
  }

  lemma {:induction false} BooksFrom(w: World, open: Open, steps: seq<Step>, end: World, pack: History -> int)
    requires Booked(w, open, pack) && Faithful(pack) && Runs(w, steps, end) && Avoids(w, steps, Dirty)
    ensures Booked(end, OpenAfter(w, open, steps), pack)
    decreases |steps|
  {
    if steps != [] {
      StepBooks(w, open, steps[0], pack);
      BooksFrom(Next(w, steps[0]), After(w, open, steps[0]), steps[1..], end, pack);
    }
  }

  lemma {:induction false} AfterDistinct(w: World, open: Open, step: Step)
    requires DistinctIds(open) && Enabled(w, step)
    ensures DistinctIds(After(w, open, step))
  {
    match step {
      case Write => ObserveDistinct(open, w.server.id, w.server.slave, 0);
      case Drop => LeaveSubset(open, Picked(w));
      case _ =>
    }
  }

  lemma {:induction false} ReadingsFrom(w: World, open: Open, steps: seq<Step>, end: World, id: string)
    requires DistinctIds(open) && Runs(w, steps, end)
    ensures (HistoryOf(open, id) + Pending(w, id)) + LooksOf(steps, id)
         == HistoriesOf(ClosedOver(w, open, steps), id) + (HistoryOf(OpenAfter(w, open, steps), id) + Pending(end, id))
    decreases |steps|
  {
    if steps != [] {
      var step, next, after := steps[0], Next(w, steps[0]), After(w, open, steps[0]);
      AfterDistinct(w, open, step);
      StepKeepsReadings(w, open, step, id);
      ReadingsFrom(next, after, steps[1..], end, id);
      var c, more := ClosedAt(w, open, step), ClosedOver(next, after, steps[1..]);
      HistoriesAppend(c, more, id);
      Regroup(HistoryOf(open, id) + Pending(w, id), LookBy(step, id), LooksOf(steps[1..], id), HistoriesOf(c, id),
              HistoryOf(after, id) + Pending(next, id), HistoriesOf(more, id),
              HistoryOf(OpenAfter(next, after, steps[1..]), id) + Pending(end, id));
    }
  }

  lemma {:induction false} ReportsFrom(w: World, open: Open, steps: seq<Step>, end: World, pack: History -> int)
    requires Booked(w, open, pack) && Faithful(pack) && Runs(w, steps, end) && Avoids(w, steps, Dirty)
    ensures end.notes + Judging(end) == (w.notes + Judging(w)) + Reports(ClosedOver(w, open, steps))
    decreases |steps|
  {
    if steps == [] {
      NoReports(w.notes + Judging(w));
    } else {
      var step, next, after := steps[0], Next(w, steps[0]), After(w, open, steps[0]);
      StepBooks(w, open, step, pack);
      StepKeepsReports(w, open, step, pack);
      ReportsFrom(next, after, steps[1..], end, pack);
      MoreReports(w.notes + Judging(w), ClosedAt(w, open, step), ClosedOver(next, after, steps[1..]));
    }
  }

  lemma {:induction false} NoReports(notes: seq<Notification>)
    ensures notes + Reports([]) == notes
  {
    assert notes + [] == notes;
  }

  lemma {:induction false} MoreReports(notes: seq<Notification>, a: Open, b: Open)
    ensures (notes + Reports(a)) + Reports(b) == notes + Reports(a + b)
  {
    ReportsAppend(a, b);
  }

  lemma {:induction false} ReadingsFromStart(steps: seq<Step>, end: World, id: string)
    requires Runs(START, steps, end)
    ensures LooksOf(steps, id) == HistoriesOf(ClosedOver(START, [], steps), id)
                                + (HistoryOf(OpenAfter(START, [], steps), id) + Pending(end, id))
  {
    ReadingsFrom(START, [], steps, end, id);
    NothingBefore(LooksOf(steps, id));
  }

  lemma {:induction false} NothingBefore<T>(s: seq<T>)
    ensures ([] + []) + s == s
  {
  }

  lemma {:induction false} ReportsFromStart(steps: seq<Step>, end: World, pack: History -> int)
    requires Faithful(pack) && Runs(START, steps, end) && Avoids(START, steps, Dirty)
    ensures end.notes + Judging(end) == Reports(ClosedOver(START, [], steps))
  {
    ReportsFrom(START, [], steps, end, pack);
    NothingBefore(Reports(ClosedOver(START, [], steps)));
  }

  /** Every reading is in exactly one session, in every interleaving in which a removal neither meets
      a reading of the same student nor removes another state than the scan has judged: a student's
      readings are those of the closed sessions, of the open one and the one on its way, in order;
      and what is notified are the reports of the closed sessions, in order. */
  lemma {:induction false} EveryReadingOnce(steps: seq<Step>, end: World, id: string)
    requires Runs(START, steps, end) && Avoids(START, steps, Dirty)
    ensures var (closed, open) := (ClosedOver(START, [], steps), OpenAfter(START, [], steps));
      && Booked(end, open, PackedState)
      && LooksOf(steps, id) == HistoriesOf(closed, id) + (HistoryOf(open, id) + Pending(end, id))
      && end.notes + Judging(end) == Reports(closed)
  {
    PackedIsFaithful();
    BooksFrom(START, [], steps, end, PackedState);
    ReadingsFromStart(steps, end, id);
    ReportsFromStart(steps, end, PackedState);
  }
}
