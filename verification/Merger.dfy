/** The merger process itself (merger/server.c, merger/timeout.c): the two linked-list dictionaries
    and the notification buffer, updated in place. A ghost field remembers every reading of every
    open session; each method is proved to do to it what the specification does. */
module Merger {
  import opened Dict
  import opened Session
  import opened Sessions
  import opened Growable
  import opened Records
  import opened Accounting
  import Hex
  import Checksum

  /** How far a scan has come: after `done` timers the tables and the queue are what the scan makes
      of those timers, with the timers not yet visited behind the kept ones. */
  ghost predicate Progress(ts: seq<Pair>, ss: seq<Pair>, q: string, done: nat, now: int, timeout: int,
                           judge: (string, int) -> seq<Notification>,
                           students: seq<Pair>, timers: seq<Pair>, queue: string)
  {
    && done <= |ts|
    && var (t, notes) := ScanBy(ts[..done], ss, now, timeout, judge);
      students == t.students && timers == t.timers + ts[done..] && queue == q + Encode(notes)
  }

  ghost function Kept(ts: seq<Pair>, ss: seq<Pair>, done: nat, now: int, timeout: int,
                      judge: (string, int) -> seq<Notification>): nat
    requires done <= |ts|
  {
    |ScanBy(ts[..done], ss, now, timeout, judge).0.timers|
  }

  /** The next timer to visit stands behind the kept ones. */
  lemma {:induction false} NextTimer(ts: seq<Pair>, ss: seq<Pair>, q: string, done: nat, now: int, timeout: int,
                  judge: (string, int) -> seq<Notification>,
                  students: seq<Pair>, timers: seq<Pair>, queue: string)
    requires Progress(ts, ss, q, done, now, timeout, judge, students, timers, queue)
    ensures var i := Kept(ts, ss, done, now, timeout, judge);
      i <= |timers| && (i < |timers| <==> done < |ts|) && (done < |ts| ==> timers[i] == ts[done])
  {
  }

  /** Evicting a timed-out timer, or passing another, makes progress. */
  lemma {:induction false} Visit(ts: seq<Pair>, ss: seq<Pair>, q: string, done: nat, now: int, timeout: int,
              judge: (string, int) -> seq<Notification>,
              students: seq<Pair>, timers: seq<Pair>, queue: string)
    requires Progress(ts, ss, q, done, now, timeout, judge, students, timers, queue) && done < |ts|
    requires Kept(ts, ss, done, now, timeout, judge) < |timers|
    ensures var (i, p) := (Kept(ts, ss, done, now, timeout, judge), ts[done]);
      if now - p.value >= timeout then
        && Kept(ts, ss, done + 1, now, timeout, judge) == i
        && Progress(ts, ss, q, done + 1, now, timeout, judge, Erase(students, p.key), Cut(timers, i),
                    queue + Encode(judge(p.key, Lookup(students, p.key))))
      else
        && Kept(ts, ss, done + 1, now, timeout, judge) == i + 1
        && Progress(ts, ss, q, done + 1, now, timeout, judge, students, timers, queue)
  {
    assert ts[..done + 1][..done] == ts[..done];
    var (t, notes) := ScanBy(ts[..done], ss, now, timeout, judge);
    assert t.timers + ts[done..] == (t.timers + [ts[done]]) + ts[done + 1..];
    if now - ts[done].value >= timeout {
      assert Cut(timers, |t.timers|) == t.timers + ts[done + 1..];
      EncodeBoth(q, notes, judge(ts[done].key, Lookup(students, ts[done].key)));
    }
  }

  lemma {:induction false} ScanStarts(ts: seq<Pair>, ss: seq<Pair>, q: string, now: int, timeout: int,
                   judge: (string, int) -> seq<Notification>)
    ensures Progress(ts, ss, q, 0, now, timeout, judge, ss, ts, q) && Kept(ts, ss, 0, now, timeout, judge) == 0
  {
    assert ts[..0] == [] && [] + ts[0..] == ts && q + Encode([]) == q;
  }

  lemma {:induction false} ScanEnds(ts: seq<Pair>, ss: seq<Pair>, q: string, done: nat, now: int, timeout: int,
                 judge: (string, int) -> seq<Notification>,
                 students: seq<Pair>, timers: seq<Pair>, queue: string)
    requires Progress(ts, ss, q, done, now, timeout, judge, students, timers, queue)
    requires |timers| == Kept(ts, ss, done, now, timeout, judge)
    ensures var (t, notes) := ScanBy(ts, ss, now, timeout, judge);
      Tables(students, timers) == t && queue == q + Encode(notes)
  {
    var (t, notes) := ScanBy(ts[..done], ss, now, timeout, judge);
    assert |ts[done..]| == 0 && ts[..done] == ts && t.timers + [] == t.timers;
  }

  /** What a run appends to the queue is what its first event appends, then what the rest does. */
  lemma {:induction false} RunQueue(open: Open, events: seq<Event>, q: string)
    ensures events == [] ==> SpecRun(open, events).0 == open && q + Encode(Emitted(open, events)) == q
    ensures events != [] ==>
      var (next, notes) := SpecStep(open, events[0]);
      && SpecRun(open, events).0 == SpecRun(next, events[1..]).0
      && q + Encode(Emitted(open, events)) == (q + Encode(notes)) + Encode(Emitted(next, events[1..]))
  {
    if events == [] {
      assert q + [] == q;
    } else {
      var (next, notes) := SpecStep(open, events[0]);
      EmittedStep(open, events);
      EncodeBoth(q, notes, Emitted(next, events[1..]));
    }
  }

  /** One student's readings, all at one time. */
  function ReadAt(id: string, h: History, t: int): seq<Event> {
    if h == [] then [] else ReadAt(id, h[..|h| - 1], t) + [Reading(id, h[|h| - 1], t)]
  }

  lemma {:induction false} ReadAtRun(id: string, h: History, t: int)
    ensures SpecRun([], ReadAt(id, h, t)).0 == (if h == [] then [] else [OpenSession(id, h, t)])
    ensures Emitted([], ReadAt(id, h, t)) == []
  {
    if h != [] {
      var g, b := h[..|h| - 1], h[|h| - 1];
      ReadAtRun(id, g, t);
      EmittedAppend([], ReadAt(id, g, t), Reading(id, b, t));
      var open := SpecRun([], ReadAt(id, g, t)).0;
      assert h == g + [b];
      if g == [] {
        assert [] + [b] == [b];
      } else {
        assert open[0].id == id;
      }
      assert Observe(open, id, b, t) == [OpenSession(id, h, t)];
    }
  }

  /** From the antennas to the text: a student is read and then not seen for the timeout. */
  lemma {:induction false} SessionIsWritten(id: string, h: History, t: int, now: int, timeout: int)
    requires h != [] && now - t >= timeout
    ensures Encode(Emitted([], ReadAt(id, h, t) + [Scan(now, timeout)])) == SessionText(id, h)
  {
    ReadAtRun(id, h, t);
    var open := [OpenSession(id, h, t)];
    EmittedAppend([], ReadAt(id, h, t), Scan(now, timeout));
    assert [] + Reports(Closing(open, now, timeout)) == Reports(Closing(open, now, timeout));
    ScanWrites(open, now, timeout);
    assert open[..0] == [] && "" + SessionText(id, h) == SessionText(id, h);
  }

  class Merger {
    const packetSize: nat
    const students: LinkedDict
    const timers: LinkedDict
    const queue: Buffer<char>
    ghost var open: Open

    ghost function IdSize(): nat { 2 * packetSize }

    ghost predicate Separate()
      reads this, students, students.Repr, timers, timers.Repr, queue
    {
      && students.Valid() && timers.Valid() && queue.Valid()
      && students.Repr !! timers.Repr
      && this !in students.Repr && queue !in students.Repr && queue.data !in students.Repr
      && this !in timers.Repr && queue !in timers.Repr && queue.data !in timers.Repr
    }

    ghost function Repr(): set<object>
      reads this, students, timers, queue
    {
      {this, queue, queue.data} + students.Repr + timers.Repr
    }

    ghost predicate Tracks()
      reads this, students, timers
    {
      Tables(students.contents, timers.contents) == Represent(open)
    }

    /** The dictionaries represent the remembered sessions, and the buffer grows by whole records. */
    ghost predicate Valid()
      reads this, students, students.Repr, timers, timers.Repr, queue
    {
      && Separate()
      && DistinctIds(open)
      && Tracks()
      && IdsOfSize(open, IdSize())
      && Records.Uniform(queue, IdSize())
    }

    constructor (packetSize: nat)
      ensures Valid() && fresh(Repr()) && open == [] && queue.Contents() == [] && this.packetSize == packetSize
    {
      this.packetSize := packetSize;
      students := new LinkedDict();
      timers := new LinkedDict();
      queue := new Buffer();
      open := [];
    }

    /** handle_student: look up, add the reading, store, restart the timer. */
    method HandleStudent(id: string, slave: bool, now: int)
      requires Valid() && |id| == IdSize()
      modifies Repr()
      ensures Valid() && fresh(Repr() - old(Repr()))
      ensures open == Observe(old(open), id, slave, now)
      ensures queue.data == old(queue.data) && queue.Contents() == old(queue.Contents())
    {
      ReadingRefines(open, id, slave, now);
      ObserveDistinct(open, id, slave, now);
      UpdateTables(id, slave, now);
      open := Observe(open, id, slave, now);
    }

    method UpdateTables(id: string, slave: bool, now: int)
      requires Separate()
      modifies students.Repr, timers.Repr
      ensures Separate() && fresh(students.Repr - old(students.Repr)) && fresh(timers.Repr - old(timers.Repr))
      ensures students.contents == Store(old(students.contents), id, NextPacked(Lookup(old(students.contents), id), slave))
      ensures timers.contents == Store(old(timers.contents), id, now)
    {
      var packed := students.Get(id);
      var state := TakeReading(Unpack(packed), slave);
      students.Set(id, Pack(state));
      timers.Set(id, now);
    }

    /** check_timers */
    method CheckTimers(now: int, timeout: int)
      requires Valid()
      modifies Repr()
      ensures Valid() && fresh(Repr() - old(Repr()))
      ensures open == Survivors(old(open), now, timeout)
      ensures queue.Contents() == old(queue.Contents()) + Encode(Reports(Closing(old(open), now, timeout)))
      ensures queue.Contents() == old(queue.Contents()) + ScanText(old(open), now, timeout)
    {
      ScanRefines(open, now, timeout);
      ScanWrites(open, now, timeout);
      ScanKeepsIds(open, now, timeout, IdSize());
      ScanTimers(now, timeout);
      open := Survivors(open, now, timeout);
    }

    /** The timed-out branch of check_timers, first half: read the state, drop the student, unlink
        the timer. */
    method Evict(prevTimer: Node, timer: Node, ghost i: nat) returns (packed: int)
      requires Separate()
      requires i < |timers.contents| && prevTimer == timers.At(i) && timer == timers.After(i)
      modifies students.Repr, timers.Repr
      ensures Separate() && students.Repr == old(students.Repr) && timers.Repr == old(timers.Repr)
      ensures timers.contents == Cut(old(timers.contents), i) && timers.spine == Cut(old(timers.spine), i)
      ensures students.contents == Erase(old(students.contents), old(timers.contents)[i].key)
      ensures packed == Lookup(old(students.contents), old(timers.contents)[i].key)
    {
      packed := students.Get(timer.key);
      var found := students.Del(timer.key);
      timers.Unlink(prevTimer, i);
    }

    /** Second half: notify if the majorities of head and tail differ. */
    method NotifyIfCrossed(id: string, packed: int)
      requires queue.Valid() && Uniform(queue, IdSize()) && |id| == IdSize()
      modifies queue, queue.data
      ensures queue.Valid() && Uniform(queue, IdSize())
      ensures queue.data == old(queue.data) || fresh(queue.data)
      ensures queue.Contents() == old(queue.Contents()) + Encode(JudgePacked(id, packed))
      ensures queue.Contents() == old(queue.Contents())
        + match Classify(Unpack(packed)) case Nothing => "" case In => id + "1." case Out => id + "0."
    {
      var v := Judge(Unpack(packed));
      if v != Nothing {
        EncodeOne(Notification(id, v == In));
        Notify(queue, Notification(id, v == In), 2 * packetSize);
        assert ['1', '.'] == "1." && ['0', '.'] == "0.";
      }
    }

    ghost predicate Scanned(ts: seq<Pair>, ss: seq<Pair>, q: string, done: nat, now: int, timeout: int,
                            judge: (string, int) -> seq<Notification>)
      reads this, students, students.Repr, timers, timers.Repr, queue, queue.data
    {
      && Separate() && Uniform(queue, IdSize())
      && Progress(ts, ss, q, done, now, timeout, judge, students.contents, timers.contents, queue.Contents())
    }

    /** The scan stands behind node `prevTimer`, at position i, in front of `timer`. */
    ghost predicate AtTimer(prevTimer: Node, timer: Node?, i: nat, now: int, timeout: int,
                            ts: seq<Pair>, ss: seq<Pair>, q: string, done: nat)
      reads this, students, students.Repr, timers, timers.Repr, queue, queue.data
    {
      && Scanned(ts, ss, q, done, now, timeout, JudgePacked) && KeysOfSize(ts, IdSize())
      && i == Kept(ts, ss, done, now, timeout, JudgePacked) <= |timers.spine|
      && prevTimer == timers.At(i) && timer == timers.After(i)
    }

    lemma {:induction false} AtFirstTimer(now: int, timeout: int)
      requires Separate() && Uniform(queue, IdSize()) && KeysOfSize(timers.contents, IdSize())
      ensures AtTimer(timers.sentinel, timers.sentinel.next, 0, now, timeout,
                      timers.contents, students.contents, queue.Contents(), 0)
    {
      ScanStarts(timers.contents, students.contents, queue.Contents(), now, timeout, JudgePacked);
      assert timers.sentinel == timers.At(0);
    }

    lemma {:induction false} BehindLastTimer(last: Node, i: nat, now: int, timeout: int,
                                             ts: seq<Pair>, ss: seq<Pair>, q: string, done: nat)
      requires AtTimer(last, null, i, now, timeout, ts, ss, q, done)
      ensures |timers.contents| == Kept(ts, ss, done, now, timeout, JudgePacked)
    {
    }

    /** One iteration of the scan. */
    method ScanOne(prevTimer: Node, timer: Node, ghost i: nat, now: int, timeout: int,
                   ghost ts: seq<Pair>, ghost ss: seq<Pair>, ghost q: string, ghost done: nat)
      returns (prev: Node, next: Node?, ghost j: nat)
      requires AtTimer(prevTimer, timer, i, now, timeout, ts, ss, q, done)
      modifies students.Repr, timers.Repr, queue, queue.data
      ensures done < |ts| && AtTimer(prev, next, j, now, timeout, ts, ss, q, done + 1)
      ensures students.Repr == old(students.Repr) && timers.Repr == old(timers.Repr)
      ensures queue.data == old(queue.data) || fresh(queue.data)
    {
      NextTimer(ts, ss, q, done, now, timeout, JudgePacked, students.contents, timers.contents, queue.Contents());
      Visit(ts, ss, q, done, now, timeout, JudgePacked, students.contents, timers.contents, queue.Contents());
      next := timer.next;
      assert next == timers.After(i + 1) by { assert timer == timers.At(i + 1); }
      if now - timer.value >= timeout {
        var id := timer.key;
        var packed := Evict(prevTimer, timer, i);
        NotifyIfCrossed(id, packed);
        prev, j := prevTimer, i;
      } else {
        prev, j := timer, i + 1;
      }
    }

    /** The scan itself: walks the timer list with a trailing pointer and unlinks as it goes. */
    method ScanTimers(now: int, timeout: int)
      requires Separate() && Uniform(queue, IdSize())
      requires KeysOfSize(timers.contents, IdSize())
      modifies students.Repr, timers.Repr, queue, queue.data
      ensures Separate() && Uniform(queue, IdSize())
      ensures students.Repr == old(students.Repr) && timers.Repr == old(timers.Repr)
      ensures queue.data == old(queue.data) || fresh(queue.data)
      ensures var (tables, notes) := ScanBy(old(timers.contents), old(students.contents), now, timeout, JudgePacked);
        && Tables(students.contents, timers.contents) == tables
        && queue.Contents() == old(queue.Contents()) + Encode(notes)
    {
      ghost var ss, ts, q := students.contents, timers.contents, queue.Contents();
      AtFirstTimer(now, timeout);
      ghost var done, last, i := WalkTimers(now, timeout, ts, ss, q);
      BehindLastTimer(last, i, now, timeout, ts, ss, q, done);
      ScanEnds(ts, ss, q, done, now, timeout, JudgePacked, students.contents, timers.contents, queue.Contents());
    }

    method WalkTimers(now: int, timeout: int, ghost ts: seq<Pair>, ghost ss: seq<Pair>, ghost q: string)
      returns (ghost done: nat, ghost last: Node, ghost i: nat)
      requires AtTimer(timers.sentinel, timers.sentinel.next, 0, now, timeout, ts, ss, q, 0)
      modifies students.Repr, timers.Repr, queue, queue.data
      ensures AtTimer(last, null, i, now, timeout, ts, ss, q, done)
      ensures students.Repr == old(students.Repr) && timers.Repr == old(timers.Repr)
      ensures queue.data == old(queue.data) || fresh(queue.data)
    {
      done, i := 0, 0;
      var prevTimer := timers.sentinel;
      var timer := prevTimer.next;
      while timer != null
        invariant AtTimer(prevTimer, timer, i, now, timeout, ts, ss, q, done)
        invariant students.Repr == old(students.Repr) && timers.Repr == old(timers.Repr)
        invariant queue.data == old(queue.data) || fresh(queue.data)
        decreases |ts| - done
      {
        prevTimer, timer, i := ScanOne(prevTimer, timer, i, now, timeout, ts, ss, q, done);
        done := done + 1;
      }
      last := prevTimer;
    }

    /** handle_packet behind the filter of msg_loop: what a complete packet from one of the two
        receivers does. */
    method ReceivePacket(f: Checksum.Filter, pack: seq<Hex.byte>, slave: bool, now: int)
      requires Valid() && |pack| == packetSize > 0
      modifies Repr()
      ensures Valid() && fresh(Repr() - old(Repr()))
      ensures open == if Checksum.IsReading(f, pack) then Observe(old(open), Hex.HexOf(pack), slave, now) else old(open)
      ensures queue.data == old(queue.data) && queue.Contents() == old(queue.Contents())
    {
      var pass := Checksum.PassesFilter(f, pack);
      if !pass { return; }
      if f.checksum {
        var ok := Checksum.CheckPacket(pack);
        if !ok { return; }
      }
      var id := Hex.SprintBuf(pack);
      HandleStudent(id[..2 * packetSize], slave, now);
    }

    method Step(e: Event)
      requires Valid() && (e.Reading? ==> |e.id| == IdSize())
      modifies Repr()
      ensures Valid() && fresh(Repr() - old(Repr()))
      ensures open == SpecStep(old(open), e).0
      ensures queue.Contents() == old(queue.Contents()) + Encode(SpecStep(old(open), e).1)
    {
      match e {
        case Reading(id, slave, now) => HandleStudent(id, slave, now);
        case Scan(now, timeout) => CheckTimers(now, timeout);
      }
    }

    /** Any run of the server and timeout threads in atomic steps: the sessions and the queued text
        are what the specification makes of the events. */
    method Replay(events: seq<Event>)
      requires Valid() && ReadingIdsOfSize(events, IdSize())
      modifies Repr()
      ensures Valid() && fresh(Repr() - old(Repr()))
      ensures open == SpecRun(old(open), events).0
      ensures queue.Contents() == old(queue.Contents()) + Encode(Emitted(old(open), events))
      decreases |events|
    {
      RunQueue(open, events, queue.Contents());
      if events != [] {
        RestOfSize(events, IdSize());
        Step(events[0]);
        Replay(events[1..]);
      }
    }
  }
}
