/** The merger's three threads over two antenna connections, from the bytes that arrive to the text
    the cloud acknowledges.

    Readings and scans are atomic here; Atomicity.dfy says when they may be taken so. The
    notifications of a scan enter the queue one by one, and the cloud sender moves in between. */
module Pipeline {
  import opened Sessions
  import opened Accounting
  import opened Framing
  import Checksum
  import Cloud
  import Gate
  import Hex
  import Receiver
  import Records

  /** One antenna's connection: the bytes still to be read, and the packets completed from it. */
  datatype Link = Link(stream: Bytes, packets: seq<Bytes>)

  /** `pending` are notifications a scan has decided and not yet queued; `events` is history. */
  datatype State = State(master: Link, slave: Link, open: Open, pending: seq<Notification>, cloud: Cloud.State,
                         events: seq<Event>)

  datatype Settings = Settings(filter: Checksum.Filter, packetSize: nat, maxLen: nat)

  datatype Step =
    | Turn(slave: bool, now: int)        // msg_loop serves one connection
    | Check(now: int, timeout: int)      // check_timers
    | Notify                             // one notify of check_timers
    | Upload(step: Cloud.Step)           // the cloud sender

  function IdSize(c: Settings): nat { 2 * c.packetSize }

  predicate Enabled(s: State, step: Step, c: Settings) {
    match step
    case Turn(_, _) => c.packetSize > 0
    case Check(_, _) => s.pending == []
    case Notify => s.pending != [] && |s.pending[0].id| == IdSize(c)
    case Upload(u) => !u.Notify? && Cloud.Enabled(s.cloud, u, IdSize(c))
  }

  /** A packet is read; a connection that ends before its packet does is closed. */
  function Read(l: Link, size: nat): Link {
    if |l.stream| < size then Link([], l.packets) else Link(l.stream[size..], l.packets + [l.stream[..size]])
  }

  /** What the packet read in a turn amounts to. */
  function ReadingOf(l: Link, slave: bool, now: int, c: Settings): seq<Event>
    requires c.packetSize > 0
  {
    if |l.stream| >= c.packetSize && Checksum.IsReading(c.filter, l.stream[..c.packetSize])
    then [Reading(Hex.HexOf(l.stream[..c.packetSize]), slave, now)] else []
  }

  function Next(s: State, step: Step, c: Settings): State
    requires Enabled(s, step, c)
  {
    match step
    case Turn(slave, now) =>
      var l := if slave then s.slave else s.master;
      var event := ReadingOf(l, slave, now, c);
      s.(master := if slave then s.master else Read(l, c.packetSize),
         slave := if slave then Read(l, c.packetSize) else s.slave,
         open := if event == [] then s.open else Observe(s.open, event[0].id, slave, now),
         events := s.events + event)
    case Check(now, timeout) =>
      s.(open := Survivors(s.open, now, timeout),
         pending := Reports(Closing(s.open, now, timeout)),
         events := s.events + [Scan(now, timeout)])
    case Notify =>
      s.(pending := s.pending[1..], cloud := Cloud.Next(s.cloud, Cloud.Notify(s.pending[0]), IdSize(c), c.maxLen))
    case Upload(u) => s.(cloud := Cloud.Next(s.cloud, u, IdSize(c), c.maxLen))
  }

  ghost predicate Runs(s: State, steps: seq<Step>, end: State, c: Settings)
    decreases |steps|
  {
    if steps == [] then s == end
    else Enabled(s, steps[0], c) && Runs(Next(s, steps[0], c), steps[1..], end, c)
  }

  function Start(master: Bytes, slave: Bytes): State {
    State(Link(master, []), Link(slave, []), [], [], Cloud.START, [])
  }

  // ----- from the bytes to the events -----

  /** The IDs read at one antenna. */
  function IdsRead(events: seq<Event>, slave: bool): seq<string> {
    if events == [] then [] else
      var e := events[|events| - 1];
      IdsRead(events[..|events| - 1], slave) + if e.Reading? && e.slave == slave then [e.id] else []
  }

  /** The IDs of the packets that are readings. */
  function IdsIn(packets: seq<Bytes>, f: Checksum.Filter, size: nat): seq<string> {
    if packets == [] then [] else
      var p := packets[|packets| - 1];
      IdsIn(packets[..|packets| - 1], f, size)
      + if |p| == size > 0 && Checksum.IsReading(f, p) then [Hex.HexOf(p)] else []
  }

  ghost predicate LinkExact(l: Link, full: Bytes, events: seq<Event>, slave: bool, c: Settings)
    requires c.packetSize > 0
  {
    && Chunks(full, c.packetSize) == l.packets + Chunks(l.stream, c.packetSize)
    && IdsRead(events, slave) == IdsIn(l.packets, c.filter, c.packetSize)
  }

  lemma {:induction false} IdsReadSnoc(events: seq<Event>, e: Event, slave: bool)
    ensures IdsRead(events + [e], slave) == IdsRead(events, slave) + if e.Reading? && e.slave == slave then [e.id] else []
  {
    assert (events + [e])[..|events|] == events;
  }

  lemma {:induction false} TurnExact(l: Link, full: Bytes, events: seq<Event>, slave: bool, now: int, c: Settings)
    requires c.packetSize > 0 && LinkExact(l, full, events, slave, c)
    ensures LinkExact(Read(l, c.packetSize), full, events + ReadingOf(l, slave, now, c), slave, c)
  {
    var size := c.packetSize;
    if |l.stream| < size {
      assert events + [] == events;
    } else {
      var p, rest := l.stream[..size], l.stream[size..];
      assert (l.packets + [p])[..|l.packets|] == l.packets;
      assert l.packets + ([p] + Chunks(rest, size)) == (l.packets + [p]) + Chunks(rest, size);
      if Checksum.IsReading(c.filter, p) {
        IdsReadSnoc(events, Reading(Hex.HexOf(p), slave, now), slave);
      } else {
        assert events + [] == events;
      }
    }
  }

  lemma {:induction false} OtherExact(l: Link, full: Bytes, events: seq<Event>, slave: bool, e: Event, c: Settings)
    requires c.packetSize > 0 && LinkExact(l, full, events, slave, c) && (e.Reading? ==> e.slave != slave)
    ensures LinkExact(l, full, events + [e], slave, c)
  {
    IdsReadSnoc(events, e, slave);
  }

  ghost predicate LinksExact(s: State, master: Bytes, slave: Bytes, c: Settings)
    requires c.packetSize > 0
  {
    LinkExact(s.master, master, s.events, false, c) && LinkExact(s.slave, slave, s.events, true, c)
  }

  lemma {:induction false} StepLinks(s: State, step: Step, master: Bytes, slave: Bytes, c: Settings)
    requires c.packetSize > 0 && LinksExact(s, master, slave, c) && Enabled(s, step, c)
    ensures LinksExact(Next(s, step, c), master, slave, c)
  {
    match step {
      case Turn(fromSlave, now) =>
        var l := if fromSlave then s.slave else s.master;
        TurnExact(l, if fromSlave then slave else master, s.events, fromSlave, now, c);
        var event := ReadingOf(l, fromSlave, now, c);
        if event == [] {
          assert s.events + [] == s.events;
        } else {
          OtherExact(if fromSlave then s.master else s.slave, if fromSlave then master else slave,
                     s.events, !fromSlave, event[0], c);
        }
      case Check(now, timeout) =>
        OtherExact(s.master, master, s.events, false, Scan(now, timeout), c);
        OtherExact(s.slave, slave, s.events, true, Scan(now, timeout), c);
      case _ =>
    }
  }

  // ----- from the events to the queue -----

  /** What was notified, and what a scan still has to notify, is what the specification emits. */
  ghost predicate Emits(s: State, c: Settings) {
    && s.open == SpecRun([], s.events).0
    && s.cloud.notified + s.pending == Emitted([], s.events)
    && Gate.PacketReadings(s.events, IdSize(c))
  }

  lemma {:induction false} EventEmits(s: State, e: Event, c: Settings)
    requires Emits(s, c) && (e.Reading? ==> |e.id| == IdSize(c) && Records.IsPacketId(e.id))
    ensures var (next, notes) := SpecStep(s.open, e);
      SpecRun([], s.events + [e]).0 == next && Emitted([], s.events + [e]) == (s.cloud.notified + s.pending) + notes
    ensures Gate.PacketReadings(s.events + [e], IdSize(c))
  {
    EmittedAppend([], s.events, e);
  }

  lemma {:induction false} StepEmits(s: State, step: Step, c: Settings)
    requires Emits(s, c) && Enabled(s, step, c)
    ensures Emits(Next(s, step, c), c)
  {
    match step {
      case Turn(slave, now) =>
        var event := ReadingOf(if slave then s.slave else s.master, slave, now, c);
        if event == [] {
          assert s.events + [] == s.events;
        } else {
          EventEmits(s, event[0], c);
        }
      case Check(now, timeout) =>
        EventEmits(s, Scan(now, timeout), c);
      case Notify =>
        assert s.cloud.notified + s.pending == (s.cloud.notified + [s.pending[0]]) + s.pending[1..];
      case Upload(u) =>
    }
  }

  // ----- all of it -----

  ghost predicate Whole(s: State, p: Cloud.Places, master: Bytes, slave: Bytes, c: Settings)
    requires c.packetSize > 0
  {
    && LinksExact(s, master, slave, c) && Emits(s, c)
    && Cloud.Accounts(s.cloud, p, IdSize(c)) && Cloud.CheckHolds(s.cloud, c.maxLen)
    && Cloud.InOrder(s.cloud.notified, p)
  }

  lemma {:induction false} StepWhole(s: State, p: Cloud.Places, step: Step, master: Bytes, slave: Bytes, c: Settings)
    returns (q: Cloud.Places)
    requires c.packetSize > 0 && c.maxLen % (IdSize(c) + 2) == 0
    requires Whole(s, p, master, slave, c) && Enabled(s, step, c)
    ensures Whole(Next(s, step, c), q, master, slave, c)
  {
    StepLinks(s, step, master, slave, c);
    StepEmits(s, step, c);
    q := p;
    if step.Notify? || step.Upload? {
      var u := if step.Notify? then Cloud.Notify(s.pending[0]) else step.step;
      Cloud.CheckKeeps(s.cloud, u, IdSize(c), c.maxLen);
      q := Cloud.StepAccounts(s.cloud, p, u, IdSize(c), c.maxLen);
      Cloud.StepInOrder(s.cloud, p, u, q, IdSize(c), c.maxLen);
    }
  }

  lemma {:induction false} WholeRuns(s: State, p: Cloud.Places, steps: seq<Step>, end: State,
                                     master: Bytes, slave: Bytes, c: Settings)
    returns (q: Cloud.Places)
    requires c.packetSize > 0 && c.maxLen % (IdSize(c) + 2) == 0
    requires Whole(s, p, master, slave, c) && Runs(s, steps, end, c)
    ensures Whole(end, q, master, slave, c)
    decreases |steps|
  {
    q := p;
    if steps != [] {
      q := StepWhole(s, p, steps[0], master, slave, c);
      q := WholeRuns(Next(s, steps[0], c), q, steps[1..], end, master, slave, c);
    }
  }

  /** In every interleaving of turns on the two connections, scans, notifications and sender steps:
      the packets completed so far are the first ones of each stream, their readings are exactly
      the readings handled, and the notifications the specification emits for these readings and
      scans are each exactly once waiting to be queued, queued, held or acknowledged. */
  lemma {:induction false} EndToEnd(master: Bytes, slave: Bytes, steps: seq<Step>, s: State, c: Settings)
    returns (p: Cloud.Places)
    requires c.packetSize > 0 && c.maxLen % (IdSize(c) + 2) == 0
    requires Runs(Start(master, slave), steps, s, c)
    ensures Cloud.Accounts(s.cloud, p, IdSize(c)) && Cloud.InOrder(s.cloud.notified, p)
    ensures multiset(s.pending) + multiset(p.queued) + multiset(p.held) + multiset(Flatten(p.done))
         == multiset(Emitted([], s.events))
    ensures Chunks(master, c.packetSize) == s.master.packets + Chunks(s.master.stream, c.packetSize)
    ensures Chunks(slave, c.packetSize) == s.slave.packets + Chunks(s.slave.stream, c.packetSize)
    ensures IdsRead(s.events, false) == IdsIn(s.master.packets, c.filter, c.packetSize)
    ensures IdsRead(s.events, true) == IdsIn(s.slave.packets, c.filter, c.packetSize)
  {
    p := WholeRuns(Start(master, slave), Cloud.Places([], [], []), steps, s, master, slave, c);
    assert multiset(s.cloud.notified + s.pending) == multiset(s.cloud.notified) + multiset(s.pending);
  }

  lemma {:induction false} EmitsRuns(s: State, steps: seq<Step>, end: State, c: Settings)
    requires Emits(s, c) && Runs(s, steps, end, c)
    ensures Emits(end, c)
    decreases |steps|
  {
    if steps != [] {
      StepEmits(s, steps[0], c);
      EmitsRuns(Next(s, steps[0], c), steps[1..], end, c);
    }
  }

  /** The notifications of a scan never get stuck: they have the length of the IDs. */
  lemma {:induction false} PendingCanBeQueued(master: Bytes, slave: Bytes, steps: seq<Step>, s: State, c: Settings)
    requires Runs(Start(master, slave), steps, s, c)
    ensures s.pending != [] ==> Enabled(s, Notify, c)
  {
    EmitsRuns(Start(master, slave), steps, s, c);
    Gate.EmittedIds([], s.events, Gate.PacketIds(IdSize(c)));
    if s.pending != [] {
      assert s.pending[0] == Emitted([], s.events)[|s.cloud.notified|];
    }
  }

  // ----- what the steps do -----

  /** The events a step may add: a turn a reading of its antenna at its time, a scan itself. */
  ghost predicate Makes(step: Step, events: seq<Event>) {
    match step
    case Turn(slave, now) => events == [] || exists id :: events == [Reading(id, slave, now)]
    case Check(now, timeout) => events == [Scan(now, timeout)]
    case _ => events == []
  }

  lemma {:induction false} StepMakes(s: State, step: Step, c: Settings) returns (made: seq<Event>)
    requires Enabled(s, step, c)
    ensures Makes(step, made) && Next(s, step, c).events == s.events + made
  {
    match step {
      case Turn(slave, now) => made := ReadingOf(if slave then s.slave else s.master, slave, now, c);
      case Check(now, timeout) => made := [Scan(now, timeout)];
      case _ =>
        made := [];
        assert s.events + [] == s.events;
    }
  }

  lemma {:induction false} EventsFrom(s: State, steps: seq<Step>, end: State, c: Settings) returns (made: seq<seq<Event>>)
    requires Runs(s, steps, end, c)
    ensures |made| == |steps| && forall i :: 0 <= i < |steps| ==> Makes(steps[i], made[i])
    ensures end.events == s.events + Flatten(made)
    decreases |steps|
  {
    if steps == [] {
      made := [];
      assert s.events + [] == s.events;
    } else {
      var first := StepMakes(s, steps[0], c);
      var rest := EventsFrom(Next(s, steps[0], c), steps[1..], end, c);
      made := [first] + rest;
      assert made[1..] == rest && (s.events + first) + Flatten(rest) == s.events + (first + Flatten(rest));
      forall i | 0 <= i < |steps| ensures Makes(steps[i], made[i]) {
        if i > 0 { assert steps[1..][i - 1] == steps[i] && rest[i - 1] == made[i]; }
      }
    }
  }

  /** The events of a run are, step by step, those its steps ask for: every scan with its own time and
      timeout, every reading with the antenna and the time of its turn. */
  lemma {:induction false} EventsAreSteps(master: Bytes, slave: Bytes, steps: seq<Step>, s: State, c: Settings)
    returns (made: seq<seq<Event>>)
    requires Runs(Start(master, slave), steps, s, c)
    ensures |made| == |steps| && forall i :: 0 <= i < |steps| ==> Makes(steps[i], made[i])
    ensures s.events == Flatten(made)
  {
    made := EventsFrom(Start(master, slave), steps, s, c);
    assert [] + Flatten(made) == Flatten(made);
  }

  function Turns(steps: seq<Step>, slave: bool): nat {
    if steps == [] then 0 else (if steps[0].Turn? && steps[0].slave == slave then 1 else 0) + Turns(steps[1..], slave)
  }

  function Notifies(steps: seq<Step>): nat {
    if steps == [] then 0 else (if steps[0].Notify? then 1 else 0) + Notifies(steps[1..])
  }

  function Smaller(a: nat, b: nat): nat { if a < b then a else b }

  lemma {:induction false} ProgressFrom(s: State, steps: seq<Step>, end: State, c: Settings, slave: bool)
    requires c.packetSize > 0 && Runs(s, steps, end, c)
    ensures var (l, m) := if slave then (s.slave, end.slave) else (s.master, end.master);
      |m.packets| == |l.packets| + Smaller(Turns(steps, slave), |Chunks(l.stream, c.packetSize)|)
    ensures |end.cloud.notified| == |s.cloud.notified| + Notifies(steps)
    decreases |steps|
  {
    if steps != [] {
      ProgressFrom(Next(s, steps[0], c), steps[1..], end, c, slave);
    }
  }

  lemma {:induction false} LinksFrom(s: State, steps: seq<Step>, end: State, master: Bytes, slave: Bytes, c: Settings)
    requires c.packetSize > 0 && LinksExact(s, master, slave, c) && Runs(s, steps, end, c)
    ensures LinksExact(end, master, slave, c)
    decreases |steps|
  {
    if steps != [] {
      StepLinks(s, steps[0], master, slave, c);
      LinksFrom(Next(s, steps[0], c), steps[1..], end, master, slave, c);
    }
  }

  /** Every turn completes one more packet of its connection while there is one, and every notify step
      queues one more notification: the ones completed and queued are the first ones. */
  lemma {:induction false} EveryStepCounts(master: Bytes, slave: Bytes, steps: seq<Step>, s: State, c: Settings)
    requires c.packetSize > 0 && Runs(Start(master, slave), steps, s, c)
    ensures var all := Chunks(master, c.packetSize); s.master.packets == all[..Smaller(Turns(steps, false), |all|)]
    ensures var all := Chunks(slave, c.packetSize); s.slave.packets == all[..Smaller(Turns(steps, true), |all|)]
    ensures Notifies(steps) <= |Emitted([], s.events)| && s.cloud.notified == Emitted([], s.events)[..Notifies(steps)]
  {
    ProgressFrom(Start(master, slave), steps, s, c, false);
    ProgressFrom(Start(master, slave), steps, s, c, true);
    EmitsRuns(Start(master, slave), steps, s, c);
    LinksFrom(Start(master, slave), steps, s, master, slave, c);
    assert s.cloud.notified == (s.cloud.notified + s.pending)[..|s.cloud.notified|];
  }

  // ----- with the receivers -----

  lemma {:induction false} IdsReadHas(events: seq<Event>, e: Event)
    requires e in events && e.Reading?
    ensures e.id in IdsRead(events, e.slave)
  {
    var init, last := events[..|events| - 1], events[|events| - 1];
    assert events == init + [last];
    if e in init { IdsReadHas(init, e); }
  }

  lemma {:induction false} IdsInFrom(packets: seq<Bytes>, f: Checksum.Filter, size: nat, id: string)
    requires id in IdsIn(packets, f, size)
    ensures exists p :: p in packets && |p| > 0 && Checksum.IsReading(f, p) && id == Hex.HexOf(p)
  {
    var init, last := packets[..|packets| - 1], packets[|packets| - 1];
    assert packets == init + [last];
    if id in IdsIn(init, f, size) {
      IdsInFrom(init, f, size, id);
      var p :| p in init && |p| > 0 && Checksum.IsReading(f, p) && id == Hex.HexOf(p);
      assert p in packets;
    } else {
      assert last in packets;
    }
  }

  /** A connection that carries some part of what one receiver sends on one of its connections. */
  ghost predicate FedBy(stream: Bytes, steps: seq<Receiver.Step>, r: Receiver.State, wire: nat, beatSize: nat, c: Settings) {
    && Receiver.Runs(Receiver.START, steps, r, c.packetSize, beatSize) && wire < |r.wires| && stream <= r.wires[wire]
    && c.packetSize > 0 && beatSize > 0 && beatSize % c.packetSize == 0
  }

  ghost function IdsOfPackets(packets: seq<Bytes>): iset<string> { iset p | p in packets :: Hex.HexOf(p) }

  lemma {:induction false} ReadWasEnqueued(l: Link, full: Bytes, id: string, steps: seq<Receiver.Step>, r: Receiver.State,
                                           wire: nat, beatSize: nat, c: Settings)
    requires FedBy(full, steps, r, wire, beatSize, c)
    requires Chunks(full, c.packetSize) == l.packets + Chunks(l.stream, c.packetSize)
    requires id in IdsIn(l.packets, c.filter, c.packetSize)
    ensures id in IdsOfPackets(r.enqueued)
  {
    IdsInFrom(l.packets, c.filter, c.packetSize, id);
    var p :| p in l.packets && |p| > 0 && Checksum.IsReading(c.filter, p) && id == Hex.HexOf(p);
    var arrivals := [Data(full)];
    assert arrivals[1..] == [] && StreamOf(arrivals) == full;
    Gate.ReadingsAreEnqueued(steps, r, wire, arrivals, c.filter, c.packetSize, beatSize, c.packetSize);
    assert p in Chunks(full, c.packetSize);
  }

  /** When both connections carry what two receivers send, every notification that waits, is queued,
      held or acknowledged is about a packet that one of the receivers enqueued. */
  lemma {:induction false} NotifiedWereEnqueued(master: Bytes, slave: Bytes, steps: seq<Step>, s: State, c: Settings,
                                                steps0: seq<Receiver.Step>, r0: Receiver.State, wire0: nat, beat0: nat,
                                                steps1: seq<Receiver.Step>, r1: Receiver.State, wire1: nat, beat1: nat)
    returns (p: Cloud.Places)
    requires FedBy(master, steps0, r0, wire0, beat0, c) && FedBy(slave, steps1, r1, wire1, beat1, c)
    requires Runs(Start(master, slave), steps, s, c) && c.maxLen % (IdSize(c) + 2) == 0
    ensures Cloud.Accounts(s.cloud, p, IdSize(c))
    ensures Gate.NotesAmong(s.pending + p.queued + p.held + Flatten(p.done), IdsOfPackets(r0.enqueued + r1.enqueued))
  {
    p := EndToEnd(master, slave, steps, s, c);
    var known := IdsOfPackets(r0.enqueued + r1.enqueued);
    forall e | e in s.events && e.Reading? ensures e.id in known {
      IdsReadHas(s.events, e);
      if e.slave {
        ReadWasEnqueued(s.slave, slave, e.id, steps1, r1, wire1, beat1, c);
      } else {
        ReadWasEnqueued(s.master, master, e.id, steps0, r0, wire0, beat0, c);
      }
    }
    Gate.EmittedIds([], s.events, known);
    var all := s.pending + p.queued + p.held + Flatten(p.done);
    assert multiset(all) == multiset(Emitted([], s.events));
    forall n | n in all ensures n.id in known {
      assert n in multiset(all);
    }
  }
}
