/** The merger as a state machine over readings and timer scans.

    The specification remembers every reading of every open session. The merger keeps two
    dictionaries, `students` (packed states) and `timers` (last-seen times). The main results:
    every run of the merger emits exactly the specification's notifications, sessions partition
    the readings, and the number of notifications is bounded by the number of readings. */
module Sessions {
  import opened Dict
  import opened Session

  datatype OpenSession = OpenSession(id: string, history: History, lastSeen: int)

  /** A reading handled at `now`, or a pass over the timers at `now` with the timeout then configured. */
  datatype Event = Reading(id: string, slave: bool, now: int) | Scan(now: int, timeout: int)

  /** `action` is true for IN, false for OUT. */
  datatype Notification = Notification(id: string, action: bool)

  ghost predicate ReadingIdsOfSize(events: seq<Event>, n: nat) {
    forall i :: 0 <= i < |events| ==> events[i].Reading? ==> |events[i].id| == n
  }

  lemma {:induction false} RestOfSize(events: seq<Event>, n: nat)
    requires events != [] && ReadingIdsOfSize(events, n)
    ensures ReadingIdsOfSize(events[1..], n) && (events[0].Reading? ==> |events[0].id| == n)
  {
  }

  function Report(id: string, v: Verdict): seq<Notification> {
    match v
    case Nothing => []
    case In => [Notification(id, true)]
    case Out => [Notification(id, false)]
  }

  // ----- the specification: full histories -----

  /** Most recently opened session first. */
  type Open = seq<OpenSession>

  ghost predicate DistinctIds(open: Open) {
    forall i, j :: 0 <= i < j < |open| ==> open[i].id != open[j].id
  }

  /** All student IDs have the length a packet gives them. */
  ghost predicate IdsOfSize(open: Open, n: nat) {
    forall i :: 0 <= i < |open| ==> |open[i].id| == n
  }

  ghost predicate KeysOfSize(s: seq<Pair>, n: nat) {
    forall i :: 0 <= i < |s| ==> |s[i].key| == n
  }

  predicate IsOpen(open: Open, id: string) {
    exists i :: 0 <= i < |open| && open[i].id == id
  }

  function Extend(s: OpenSession, id: string, slave: bool, now: int): OpenSession {
    if s.id == id then OpenSession(id, s.history + [slave], now) else s
  }

  function Observe(open: Open, id: string, slave: bool, now: int): Open {
    if IsOpen(open, id) then seq(|open|, i requires 0 <= i < |open| => Extend(open[i], id, slave, now))
    else [OpenSession(id, [slave], now)] + open
  }

  predicate TimedOut(s: OpenSession, now: int, timeout: int) {
    now - s.lastSeen >= timeout
  }

  function Survivors(open: Open, now: int, timeout: int): Open {
    if open == [] then [] else
      var s := open[|open| - 1];
      Survivors(open[..|open| - 1], now, timeout) + if TimedOut(s, now, timeout) then [] else [s]
  }

  function Closing(open: Open, now: int, timeout: int): Open {
    if open == [] then [] else
      var s := open[|open| - 1];
      Closing(open[..|open| - 1], now, timeout) + if TimedOut(s, now, timeout) then [s] else []
  }

  /** What the specification reports about a session it closes. */
  function ReportOf(s: OpenSession): seq<Notification> { Report(s.id, VerdictOf(s.history)) }

  function ReportsBy(closed: Open, report: OpenSession -> seq<Notification>): seq<Notification> {
    if closed == [] then [] else
      ReportsBy(closed[..|closed| - 1], report) + report(closed[|closed| - 1])
  }

  function Reports(closed: Open): seq<Notification> { ReportsBy(closed, ReportOf) }

  function SpecStep(open: Open, e: Event): (Open, seq<Notification>) {
    match e
    case Reading(id, slave, now) => (Observe(open, id, slave, now), [])
    case Scan(now, timeout) => (Survivors(open, now, timeout), Reports(Closing(open, now, timeout)))
  }

  function SpecRun(open: Open, events: seq<Event>): (Open, seq<seq<Notification>>)
    decreases |events|
  {
    if events == [] then (open, []) else
      var (next, out) := SpecStep(open, events[0]);
      var (end, outs) := SpecRun(next, events[1..]);
      (end, [out] + outs)
  }

  // ----- the merger: two dictionaries -----

  datatype Tables = Tables(students: seq<Pair>, timers: seq<Pair>)

  /** The packed state after one more reading. */
  function NextPacked(packed: int, slave: bool): int { Pack(AddReading(Unpack(packed), slave)) }

  function HandleBy(t: Tables, id: string, slave: bool, now: int, next: (int, bool) -> int): Tables {
    Tables(Store(t.students, id, next(Lookup(t.students, id), slave)), Store(t.timers, id, now))
  }

  /** handle_student */
  function HandleStudent(t: Tables, id: string, slave: bool, now: int): Tables {
    HandleBy(t, id, slave, now, NextPacked)
  }

  function Unexpired(timers: seq<Pair>, now: int, timeout: int): seq<Pair> {
    if timers == [] then [] else
      var p := timers[|timers| - 1];
      Unexpired(timers[..|timers| - 1], now, timeout) + if now - p.value >= timeout then [] else [p]
  }

  function ExpiredKeys(timers: seq<Pair>, now: int, timeout: int): seq<string> {
    if timers == [] then [] else
      var p := timers[|timers| - 1];
      ExpiredKeys(timers[..|timers| - 1], now, timeout) + if now - p.value >= timeout then [p.key] else []
  }

  function EraseAll(s: seq<Pair>, keys: seq<string>): seq<Pair> {
    if keys == [] then s else Erase(EraseAll(s, keys[..|keys| - 1]), keys[|keys| - 1])
  }

  function Judgements(students: seq<Pair>, keys: seq<string>, judge: (string, int) -> seq<Notification>): seq<Notification> {
    if keys == [] then [] else
      var k := keys[|keys| - 1];
      Judgements(students, keys[..|keys| - 1], judge) + judge(k, Lookup(students, k))
  }

  /** What `check_timers` notifies for an evicted student with this packed state. */
  function JudgePacked(id: string, packed: int): seq<Notification> {
    Report(id, Classify(Unpack(packed)))
  }

  /** The scan, timer by timer: a timed-out student is judged by the state then stored and leaves
      both tables, any other timer stays. */
  function ScanBy(timers: seq<Pair>, students: seq<Pair>, now: int, timeout: int,
                  judge: (string, int) -> seq<Notification>): (Tables, seq<Notification>)
  {
    if timers == [] then (Tables(students, []), []) else
      var p := timers[|timers| - 1];
      var (t, notes) := ScanBy(timers[..|timers| - 1], students, now, timeout, judge);
      if now - p.value >= timeout then
        (Tables(Erase(t.students, p.key), t.timers), notes + judge(p.key, Lookup(t.students, p.key)))
      else
        (Tables(t.students, t.timers + [p]), notes)
  }

  /** check_timers: the tables it leaves and the notifications it emits. */
  function CheckTimers(t: Tables, now: int, timeout: int): (Tables, seq<Notification>) {
    ScanBy(t.timers, t.students, now, timeout, JudgePacked)
  }

  function MergerStep(t: Tables, e: Event): (Tables, seq<Notification>) {
    match e
    case Reading(id, slave, now) => (HandleStudent(t, id, slave, now), [])
    case Scan(now, timeout) => CheckTimers(t, now, timeout)
  }

  function MergerRun(t: Tables, events: seq<Event>): (Tables, seq<seq<Notification>>)
    decreases |events|
  {
    if events == [] then (t, []) else
      var (next, out) := MergerStep(t, events[0]);
      var (end, outs) := MergerRun(next, events[1..]);
      (end, [out] + outs)
  }

  // ----- refinement -----

  function PackedState(h: History): int { Pack(StateAfter(h)) }

  /** The tables that represent a set of open sessions, for a given packing of histories. */
  function RepresentBy(open: Open, pack: History -> int): (t: Tables)
    ensures |t.students| == |t.timers| == |open|
    ensures forall i :: 0 <= i < |open| ==> t.students[i] == Pair(open[i].id, pack(open[i].history))
    ensures forall i :: 0 <= i < |open| ==> t.timers[i] == Pair(open[i].id, open[i].lastSeen)
  {
    Tables(seq(|open|, i requires 0 <= i < |open| => Pair(open[i].id, pack(open[i].history))),
           seq(|open|, i requires 0 <= i < |open| => Pair(open[i].id, open[i].lastSeen)))
  }

  function Represent(open: Open): Tables { RepresentBy(open, PackedState) }

  lemma {:induction false} RepresentKeys(open: Open, pack: History -> int)
    ensures var t := RepresentBy(open, pack);
      && Keys(t.students) == Keys(t.timers)
      && (forall id :: id in Keys(t.students) <==> IsOpen(open, id))
      && (DistinctIds(open) ==> DistinctKeys(t.students) && DistinctKeys(t.timers))
  {
    var t := RepresentBy(open, pack);
    assert forall i :: 0 <= i < |open| ==> Keys(t.students)[i] == open[i].id;
  }

  lemma {:induction false} ObserveDistinct(open: Open, id: string, slave: bool, now: int)
    requires DistinctIds(open)
    ensures DistinctIds(Observe(open, id, slave, now))
    ensures IdsOfSize(open, |id|) ==> IdsOfSize(Observe(open, id, slave, now), |id|)
  {
  }

  /** Storing the extended history and the time under an open session's key is one observation. */
  lemma {:induction false} StoreOpen(open: Open, i: nat, slave: bool, now: int, pack: History -> int)
    requires DistinctIds(open) && i < |open|
    ensures var (t, id, h) := (RepresentBy(open, pack), open[i].id, open[i].history + [slave]);
      Tables(Store(t.students, id, pack(h)), Store(t.timers, id, now)) == RepresentBy(Observe(open, id, slave, now), pack)
      && Lookup(t.students, id) == pack(open[i].history)
  {
    var t, id, h := RepresentBy(open, pack), open[i].id, open[i].history + [slave];
    RepresentKeys(open, pack);
    StoreExisting(t.students, i, pack(h));
    StoreExisting(t.timers, i, now);
    ObserveUpdates(open, i, slave, now);
    RepresentUpdate(open, i, OpenSession(id, h, now), pack);
  }

  lemma {:induction false} StoreNewcomer(open: Open, id: string, slave: bool, now: int, pack: History -> int)
    requires DistinctIds(open) && !IsOpen(open, id)
    ensures var t := RepresentBy(open, pack);
      Tables(Store(t.students, id, pack([slave])), Store(t.timers, id, now))
      == RepresentBy(Observe(open, id, slave, now), pack)
      && Lookup(t.students, id) == 0
  {
    var t := RepresentBy(open, pack);
    RepresentKeys(open, pack);
    forall j | 0 <= j < |open| ensures open[j].id != id {}
    StoreNew(t.students, id, pack([slave]));
    StoreNew(t.timers, id, now);
    RepresentFront(open, OpenSession(id, [slave], now), pack);
  }

  lemma {:induction false} RepresentFront(open: Open, s: OpenSession, pack: History -> int)
    ensures var (t, u) := (RepresentBy(open, pack), RepresentBy([s] + open, pack));
      && u.students == [Pair(s.id, pack(s.history))] + t.students
      && u.timers == [Pair(s.id, s.lastSeen)] + t.timers
  {
  }

  lemma {:induction false} RepresentUpdate(open: Open, i: nat, s: OpenSession, pack: History -> int)
    requires i < |open|
    ensures var (t, u) := (RepresentBy(open, pack), RepresentBy(open[i := s], pack));
      && u.students == t.students[i := Pair(s.id, pack(s.history))]
      && u.timers == t.timers[i := Pair(s.id, s.lastSeen)]
  {
  }

  lemma {:induction false} ObserveUpdates(open: Open, i: nat, slave: bool, now: int)
    requires DistinctIds(open) && i < |open|
    ensures Observe(open, open[i].id, slave, now) == open[i := OpenSession(open[i].id, open[i].history + [slave], now)]
  {
    assert IsOpen(open, open[i].id);
  }

  /** The readings of `id` in its open session, none when it has no session. */
  function HistoryOf(open: Open, id: string): History {
    if open == [] then [] else if open[0].id == id then open[0].history else HistoryOf(open[1..], id)
  }

  lemma {:induction false} HistoryAt(open: Open, i: nat)
    requires DistinctIds(open) && i < |open|
    ensures HistoryOf(open, open[i].id) == open[i].history
  {
    if i > 0 { HistoryAt(open[1..], i - 1); }
  }

  lemma {:induction false} NoHistory(open: Open, id: string)
    requires !IsOpen(open, id)
    ensures HistoryOf(open, id) == []
  {
    if open != [] {
      assert open[0].id != id;
      assert forall i :: 0 <= i < |open| - 1 ==> open[1..][i] == open[i + 1];
      NoHistory(open[1..], id);
    }
  }

  /** `next` computes the packing of a longer history from the packing of `h`. */
  predicate Follows(pack: History -> int, next: (int, bool) -> int, h: History, slave: bool) {
    pack([]) == 0 && next(pack(h), slave) == pack(h + [slave])
  }

  lemma {:induction false} PackedFollows(h: History, slave: bool)
    ensures Follows(PackedState, NextPacked, h, slave)
  {
    UnpackPack(StateAfter(h));
    assert (h + [slave])[..|h|] == h;
  }

  lemma {:induction false} ReadingRefinesBy(open: Open, id: string, slave: bool, now: int,
                         pack: History -> int, next: (int, bool) -> int)
    requires DistinctIds(open)
    requires Follows(pack, next, HistoryOf(open, id), slave)
    ensures HandleBy(RepresentBy(open, pack), id, slave, now, next) == RepresentBy(Observe(open, id, slave, now), pack)
  {
    if IsOpen(open, id) {
      var i :| 0 <= i < |open| && open[i].id == id;
      HistoryAt(open, i);
      StoreOpen(open, i, slave, now, pack);
    } else {
      NoHistory(open, id);
      StoreNewcomer(open, id, slave, now, pack);
      assert [] + [slave] == [slave];
    }
  }

  /** One reading keeps the representation. */
  lemma {:induction false} ReadingRefines(open: Open, id: string, slave: bool, now: int)
    requires DistinctIds(open)
    ensures HandleStudent(Represent(open), id, slave, now) == Represent(Observe(open, id, slave, now))
  {
    PackedFollows(HistoryOf(open, id), slave);
    ReadingRefinesBy(open, id, slave, now, PackedState, NextPacked);
  }

  lemma {:induction false} RepresentPrefix(open: Open, n: nat, pack: History -> int)
    requires n <= |open|
    ensures RepresentBy(open[..n], pack).students == RepresentBy(open, pack).students[..n]
    ensures RepresentBy(open[..n], pack).timers == RepresentBy(open, pack).timers[..n]
  {
  }

  /** Erasing keys one by one leaves the pairs under the other keys, in order. */
  function Without(s: seq<Pair>, keys: seq<string>): seq<Pair> {
    if s == [] then [] else
      var p := s[|s| - 1];
      Without(s[..|s| - 1], keys) + if p.key in keys then [] else [p]
  }

  lemma {:induction false} WithoutKeys(s: seq<Pair>, keys: seq<string>)
    ensures forall p :: p in Without(s, keys) <==> p in s && p.key !in keys
    ensures DistinctKeys(s) ==> DistinctKeys(Without(s, keys))
  {
    if s != [] {
      var init := s[..|s| - 1];
      WithoutKeys(init, keys);
      assert s == init + [s[|s| - 1]];
      if DistinctKeys(s) {
        var w := Without(init, keys);
        forall i | 0 <= i < |w| ensures w[i].key != s[|s| - 1].key {
          assert w[i] in init;
        }
      }
    }
  }

  lemma {:induction false} EraseAppend(s: seq<Pair>, t: seq<Pair>, key: string)
    ensures Erase(s + t, key) == if key in Keys(s) then Erase(s, key) + t else s + Erase(t, key)
  {
    if s == [] {
      assert s + t == t && s + Erase(t, key) == Erase(t, key);
    } else {
      var p, rest := s[0], s[1..];
      assert (s + t)[0] == p && (s + t)[1..] == rest + t;
      assert Keys(s) == [p.key] + Keys(rest);
      if p.key != key {
        EraseAppend(rest, t, key);
        assert [p] + (Erase(rest, key) + t) == ([p] + Erase(rest, key)) + t;
        assert [p] + (rest + Erase(t, key)) == s + Erase(t, key);
      }
    }
  }

  lemma {:induction false} WithoutSnoc(s: seq<Pair>, p: Pair, keys: seq<string>)
    ensures Without(s + [p], keys) == Without(s, keys) + if p.key in keys then [] else [p]
  {
    assert (s + [p])[..|s|] == s;
  }

  /** The last pair's part of WithoutOneMore, for a list that does not hold its key. */
  lemma {:induction false} EraseLast(w: seq<Pair>, p: Pair, key: string)
    requires p.key !in Keys(w)
    ensures Erase(w + [p], key) == if p.key == key then w else Erase(w, key) + [p]
  {
    EraseAppend(w, [p], key);
    if p.key == key {
      assert w + [] == w;
    } else if key !in Keys(w) {
      EraseAbsent(w, key);
    }
  }

  lemma {:induction false} WithoutOneMore(s: seq<Pair>, keys: seq<string>, key: string)
    requires DistinctKeys(s)
    ensures Erase(Without(s, keys), key) == Without(s, keys + [key])
  {
    if s != [] {
      var init, p := s[..|s| - 1], s[|s| - 1];
      assert s == init + [p];
      WithoutOneMore(init, keys, key);
      NotAmongEarlier(init, p, keys);
      WithoutSnoc(init, p, keys);
      WithoutSnoc(init, p, keys + [key]);
      var w := Without(init, keys);
      assert w + [] == w && Without(init, keys + [key]) + [] == Without(init, keys + [key]);
      if p.key !in keys {
        EraseLast(w, p, key);
        if p.key == key { EraseAbsent(w, key); }
      }
    }
  }

  lemma {:induction false} NotAmongEarlier(init: seq<Pair>, p: Pair, keys: seq<string>)
    requires DistinctKeys(init + [p])
    ensures p.key !in Keys(Without(init, keys))
  {
    WithoutKeys(init, keys);
    KeyPresent(Without(init, keys), p.key);
    assert forall i :: 0 <= i < |init| ==> (init + [p])[i] == init[i];
    assert (init + [p])[|init|] == p;
  }

  /** Erasing other keys does not change what is stored under `key`. */
  lemma {:induction false} LookupAfterErase(s: seq<Pair>, key: string, other: string)
    requires key != other
    ensures Lookup(Erase(s, other), key) == Lookup(s, key)
  {
    if s != [] && s[0].key != other {
      assert Erase(s, other)[1..] == Erase(s[1..], other);
      LookupAfterErase(s[1..], key, other);
    }
  }

  lemma {:induction false} LookupAfterEraseAll(s: seq<Pair>, key: string, keys: seq<string>)
    requires key !in keys
    ensures Lookup(EraseAll(s, keys), key) == Lookup(s, key)
  {
    if keys != [] {
      LookupAfterEraseAll(s, key, keys[..|keys| - 1]);
      LookupAfterErase(EraseAll(s, keys[..|keys| - 1]), key, keys[|keys| - 1]);
    }
  }

  lemma {:induction false} ExpiredAreKeys(timers: seq<Pair>, now: int, timeout: int)
    ensures forall k :: k in ExpiredKeys(timers, now, timeout) ==> exists i :: 0 <= i < |timers| && timers[i].key == k
  {
    if timers != [] {
      var init := timers[..|timers| - 1];
      ExpiredAreKeys(init, now, timeout);
      forall k | k in ExpiredKeys(timers, now, timeout) ensures exists i :: 0 <= i < |timers| && timers[i].key == k {
        if k in ExpiredKeys(init, now, timeout) {
          var i :| 0 <= i < |init| && init[i].key == k;
          assert timers[i].key == k;
        }
      }
    }
  }

  lemma {:induction false} ExpiredKeyIsNew(timers: seq<Pair>, i: nat, now: int, timeout: int)
    requires DistinctKeys(timers) && i < |timers|
    ensures timers[i].key !in ExpiredKeys(timers[..i], now, timeout)
  {
    ExpiredAreKeys(timers[..i], now, timeout);
  }

  /** One scan evicts exactly the expired keys: the timers that stay are the unexpired ones in
      order, the students lose those keys, and each evicted student is judged by the state it had. */
  lemma {:induction false} ScanIsFilter(timers: seq<Pair>, students: seq<Pair>, now: int, timeout: int,
                                        judge: (string, int) -> seq<Notification>)
    requires DistinctKeys(timers)
    ensures var keys := ExpiredKeys(timers, now, timeout);
      ScanBy(timers, students, now, timeout, judge)
      == (Tables(EraseAll(students, keys), Unexpired(timers, now, timeout)), Judgements(students, keys, judge))
  {
    if timers != [] {
      var init, p := timers[..|timers| - 1], timers[|timers| - 1];
      ScanIsFilter(init, students, now, timeout, judge);
      if now - p.value >= timeout {
        var keys := ExpiredKeys(init, now, timeout);
        assert (keys + [p.key])[..|keys|] == keys;
        ExpiredKeyIsNew(timers, |init|, now, timeout);
        LookupAfterEraseAll(students, p.key, keys);
        assert ExpiredKeys(timers, now, timeout) == keys + [p.key];
        assert Unexpired(timers, now, timeout) == Unexpired(init, now, timeout);
      } else {
        assert ExpiredKeys(timers, now, timeout) == ExpiredKeys(init, now, timeout);
      }
    }
  }

  lemma {:induction false} KeyPresent(s: seq<Pair>, key: string)
    ensures key in Keys(s) <==> exists p :: p in s && p.key == key
  {
    if key in Keys(s) {
      var i := FirstIndex(s, key);
      assert s[i] in s;
    }
    if p :| p in s && p.key == key {
      var i :| 0 <= i < |s| && s[i] == p;
      assert Keys(s)[i] == key;
    }
  }

  lemma {:induction false} EraseAllIsWithout(s: seq<Pair>, keys: seq<string>)
    requires DistinctKeys(s)
    ensures EraseAll(s, keys) == Without(s, keys)
  {
    if keys == [] {
      WithoutNothing(s);
    } else {
      EraseAllIsWithout(s, keys[..|keys| - 1]);
      WithoutOneMore(s, keys[..|keys| - 1], keys[|keys| - 1]);
      assert keys == keys[..|keys| - 1] + [keys[|keys| - 1]];
    }
  }

  lemma {:induction false} WithoutNothing(s: seq<Pair>)
    ensures Without(s, []) == s
  {
    if s != [] { WithoutNothing(s[..|s| - 1]); }
  }

  lemma {:induction false} WithoutSame(s: seq<Pair>, keys: seq<string>, more: seq<string>)
    requires forall i :: 0 <= i < |s| ==> (s[i].key in keys <==> s[i].key in more)
    ensures Without(s, keys) == Without(s, more)
  {
    if s != [] {
      assert forall i :: 0 <= i < |s| - 1 ==> s[..|s| - 1][i] == s[i];
      WithoutSame(s[..|s| - 1], keys, more);
    }
  }

  function Ids(open: Open): seq<string> {
    if open == [] then [] else Ids(open[..|open| - 1]) + [open[|open| - 1].id]
  }

  lemma {:induction false} IdsAppend(open: Open, s: OpenSession)
    ensures Ids(open + [s]) == Ids(open) + [s.id]
  {
    assert (open + [s])[..|open|] == open;
  }

  /** The expired keys are those of the closing sessions. */
  lemma {:induction false} ExpiredAreClosing(open: Open, now: int, timeout: int, pack: History -> int)
    ensures ExpiredKeys(RepresentBy(open, pack).timers, now, timeout) == Ids(Closing(open, now, timeout))
  {
    if open != [] {
      var init, s := open[..|open| - 1], open[|open| - 1];
      ExpiredAreClosing(init, now, timeout, pack);
      RepresentPrefix(open, |init|, pack);
      var timers := RepresentBy(open, pack).timers;
      assert timers[|timers| - 1] == Pair(s.id, s.lastSeen);
      if TimedOut(s, now, timeout) {
        IdsAppend(Closing(init, now, timeout), s);
        assert Closing(open, now, timeout) == Closing(init, now, timeout) + [s];
      } else {
        assert Closing(open, now, timeout) == Closing(init, now, timeout);
      }
    }
  }

  lemma {:induction false} InIds(open: Open, id: string)
    ensures id in Ids(open) <==> exists s :: s in open && s.id == id
  {
    if open != [] {
      InIds(open[..|open| - 1], id);
      assert open == open[..|open| - 1] + [open[|open| - 1]];
    }
  }

  lemma {:induction false} IdTimedOut(open: Open, i: nat, now: int, timeout: int)
    requires DistinctIds(open) && i < |open|
    ensures open[i].id in Ids(Closing(open, now, timeout)) <==> TimedOut(open[i], now, timeout)
  {
    ScanSplits(open, now, timeout);
    InIds(Closing(open, now, timeout), open[i].id);
    assert open[i] in open;
    assert forall s :: s in open && s.id == open[i].id ==> s == open[i];
  }

  lemma {:induction false} SurvivorTimers(open: Open, now: int, timeout: int, pack: History -> int)
    ensures RepresentBy(Survivors(open, now, timeout), pack).timers
         == Unexpired(RepresentBy(open, pack).timers, now, timeout)
  {
    if open != [] {
      SurvivorTimers(open[..|open| - 1], now, timeout, pack);
      RepresentPrefix(open, |open| - 1, pack);
    }
  }

  /** The students left are those of the surviving sessions, for any key list that names exactly
      the timed-out sessions. */
  lemma {:induction false} SurvivorStudents(open: Open, now: int, timeout: int, keys: seq<string>, pack: History -> int)
    requires forall i :: 0 <= i < |open| ==> (open[i].id in keys <==> TimedOut(open[i], now, timeout))
    ensures RepresentBy(Survivors(open, now, timeout), pack).students == Without(RepresentBy(open, pack).students, keys)
  {
    if open != [] {
      var init := open[..|open| - 1];
      assert forall i :: 0 <= i < |init| ==> init[i] == open[i];
      SurvivorStudents(init, now, timeout, keys, pack);
      RepresentPrefix(open, |init|, pack);
    }
  }

  /** The packed states of the closing sessions are judged as their histories deserve. */
  lemma {:induction false} JudgementsAreReports(open: Open, closed: Open)
    requires DistinctIds(open) && forall s :: s in closed ==> s in open
    ensures Judgements(Represent(open).students, Ids(closed), JudgePacked) == Reports(closed)
  {
    if closed != [] {
      var init, s := closed[..|closed| - 1], closed[|closed| - 1];
      JudgementsAreReports(open, init);
      assert Ids(closed)[..|Ids(closed)| - 1] == Ids(init);
      assert s in open;
      JudgementOf(open, s);
    }
  }

  lemma {:induction false} JudgementOf(open: Open, s: OpenSession)
    requires DistinctIds(open) && s in open
    ensures JudgePacked(s.id, Lookup(Represent(open).students, s.id)) == Report(s.id, VerdictOf(s.history))
  {
    var i :| 0 <= i < |open| && open[i] == s;
    LookupFrom(Represent(open).students, i, s.id);
    UnpackPack(StateAfter(s.history));
    ClassifyIsExact(s.history);
  }

  lemma {:induction false} ScanSplits(open: Open, now: int, timeout: int)
    ensures forall s :: s in Closing(open, now, timeout) <==> s in open && TimedOut(s, now, timeout)
    ensures forall s :: s in Survivors(open, now, timeout) <==> s in open && !TimedOut(s, now, timeout)
    ensures DistinctIds(open) ==> DistinctIds(Survivors(open, now, timeout))
  {
    if open != [] {
      var init, s := open[..|open| - 1], open[|open| - 1];
      ScanSplits(init, now, timeout);
      assert open == init + [s];
      if DistinctIds(open) {
        var r := Survivors(init, now, timeout);
        forall i | 0 <= i < |r| ensures r[i].id != s.id {
          assert r[i] in init;
        }
      }
    }
  }

  /** One scan keeps the representation and emits what the specification reports. */
  lemma {:induction false} ScanRefines(open: Open, now: int, timeout: int)
    requires DistinctIds(open)
    ensures CheckTimers(Represent(open), now, timeout)
         == (Represent(Survivors(open, now, timeout)), Reports(Closing(open, now, timeout)))
  {
    var t := Represent(open);
    RepresentKeys(open, PackedState);
    var keys := ExpiredKeys(t.timers, now, timeout);
    ScanIsFilter(t.timers, t.students, now, timeout, JudgePacked);
    ExpiredAreClosing(open, now, timeout, PackedState);
    EraseAllIsWithout(t.students, keys);
    forall i | 0 <= i < |open| ensures open[i].id in keys <==> TimedOut(open[i], now, timeout) {
      IdTimedOut(open, i, now, timeout);
    }
    SurvivorTimers(open, now, timeout, PackedState);
    SurvivorStudents(open, now, timeout, keys, PackedState);
    ScanSplits(open, now, timeout);
    JudgementsAreReports(open, Closing(open, now, timeout));
  }

  lemma {:induction false} ScanKeepsIds(open: Open, now: int, timeout: int, n: nat)
    requires DistinctIds(open) && IdsOfSize(open, n)
    ensures KeysOfSize(Represent(open).timers, n)
    ensures DistinctIds(Survivors(open, now, timeout)) && IdsOfSize(Survivors(open, now, timeout), n)
  {
    ScanSplits(open, now, timeout);
    var left := Survivors(open, now, timeout);
    forall i | 0 <= i < |left| ensures |left[i].id| == n {
      assert left[i] in open;
    }
  }

  /** Whole-run refinement: from corresponding states every sequence of readings and scans makes
      the merger emit, event by event, exactly the notifications of the specification. */
  lemma {:induction false} RunRefines(open: Open, events: seq<Event>)
    requires DistinctIds(open)
    ensures MergerRun(Represent(open), events) == (Represent(SpecRun(open, events).0), SpecRun(open, events).1)
    ensures DistinctIds(SpecRun(open, events).0)
    decreases |events|
  {
    if events != [] {
      match events[0] {
        case Reading(id, slave, now) =>
          ReadingRefines(open, id, slave, now);
          ObserveDistinct(open, id, slave, now);
        case Scan(now, timeout) =>
          ScanRefines(open, now, timeout);
          ScanSplits(open, now, timeout);
      }
      RunRefines(SpecStep(open, events[0]).0, events[1..]);
    }
  }
}
