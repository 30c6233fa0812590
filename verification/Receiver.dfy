/** The receiver's sender thread (receive/sender.c): a FIFO of radio packets, sent as one batch per
    turn over a connection that is closed after every short send; the batch is then sent again from
    its first byte over the next connection.

    `packetSize` is the length add_to_queue is called with, `beatSize` the length of the all-zero
    heartbeat, `mergerSize` the length the merger reads. The first two come from the same setting,
    read once as a hexadecimal and once as a decimal number, the third from a setting of the merger,
    so nothing here assumes that they agree. */
module Receiver {
  import opened Hex
  import opened Framing
  import opened Growable
  import opened Sequences

  /** Where cron_send stands: in front of try_connect, in front of do_send, or inside do_send with
      the buffer to send prepared. */
  datatype Place = Connecting | Ready | Loaded

  datatype Batch = Batch(bytes: Bytes, heartbeat: bool)

  /** `held` is the buffer being sent, or kept after a failure (`lastok` false). The last three
      fields are history: the packets enqueued, the batches sent successfully, and for every
      connection the bytes that `send` accepted on it. */
  datatype State = State(queue: Bytes, place: Place, sockOpen: bool, lastok: bool, held: Batch,
                         enqueued: seq<Bytes>, sent: seq<Batch>, wires: seq<Bytes>)

  datatype Step =
    | Enqueue(packet: Bytes)     // add_to_queue
    | ConnectFails
    | ConnectWorks
    | Load                       // do_send up to the send
    | Send(accepted: int)        // send returned this many bytes, or -1

  const START := State([], Connecting, false, true, Batch([], true), [], [], [])

  predicate Enabled(s: State, step: Step, packetSize: nat) {
    match step
    case Enqueue(p) => |p| == packetSize
    case ConnectFails => s.place.Connecting?
    case ConnectWorks => s.place.Connecting?
    case Load => s.place.Ready?
    case Send(n) => s.place.Loaded? && -1 <= n <= |s.held.bytes|
  }

  function NextBatch(s: State, beatSize: nat): Batch {
    if !s.lastok then s.held
    else if s.queue == [] then Batch(Zeros(beatSize), true)
    else Batch(s.queue, false)
  }

  /** Bytes accepted on the current, that is the latest, connection. */
  function OnWire(wires: seq<Bytes>, b: Bytes): seq<Bytes> {
    if wires == [] then [b] else wires[|wires| - 1 := wires[|wires| - 1] + b]
  }

  function Next(s: State, step: Step, packetSize: nat, beatSize: nat): State
    requires Enabled(s, step, packetSize)
  {
    match step
    case Enqueue(p) => s.(queue := s.queue + p, enqueued := s.enqueued + [p])
    case ConnectFails => s.(sockOpen := false)
    case ConnectWorks => s.(sockOpen := true, place := Ready, wires := s.wires + [[]])
    case Load =>
      s.(place := Loaded, held := NextBatch(s, beatSize), queue := if s.lastok then [] else s.queue)
    case Send(n) =>
      var wires := OnWire(s.wires, s.held.bytes[..if n < 0 then 0 else n]);
      if n < |s.held.bytes| then s.(lastok := false, sockOpen := false, place := Connecting, wires := wires)
      else s.(lastok := true, place := Ready, wires := wires, sent := s.sent + [s.held])
  }

  ghost predicate Runs(s: State, steps: seq<Step>, end: State, packetSize: nat, beatSize: nat)
    decreases |steps|
  {
    if steps == [] then s == end
    else Enabled(s, steps[0], packetSize)
         && Runs(Next(s, steps[0], packetSize, beatSize), steps[1..], end, packetSize, beatSize)
  }

  // ----- FIFO, and the discipline of the socket -----

  /** A batch is prepared or waits to be sent again. */
  predicate Pending(s: State) { s.place.Loaded? || !s.lastok }

  function DataOf(sent: seq<Batch>): Bytes {
    if sent == [] then []
    else DataOf(sent[..|sent| - 1]) + if sent[|sent| - 1].heartbeat then [] else sent[|sent| - 1].bytes
  }

  function HeldData(s: State): Bytes {
    if Pending(s) && !s.held.heartbeat then s.held.bytes else []
  }

  ghost predicate Fifo(s: State) {
    && (s.sockOpen <==> !s.place.Connecting?)
    && (s.place.Ready? || s.place.Loaded? ==> s.wires != [])
    && Concat(s.enqueued) == DataOf(s.sent) + HeldData(s) + s.queue
  }

  lemma {:induction false} FifoStep(s: State, step: Step, packetSize: nat, beatSize: nat)
    requires Fifo(s) && Enabled(s, step, packetSize)
    ensures Fifo(Next(s, step, packetSize, beatSize))
  {
    match step {
      case Enqueue(p) =>
        assert (s.enqueued + [p])[..|s.enqueued|] == s.enqueued;
        assert (DataOf(s.sent) + HeldData(s) + s.queue) + p == DataOf(s.sent) + HeldData(s) + (s.queue + p);
      case ConnectFails =>
      case ConnectWorks =>
      case Load => LoadFifo(s, beatSize);
      case Send(n) =>
        if n == |s.held.bytes| {
          assert (s.sent + [s.held])[..|s.sent|] == s.sent;
          assert DataOf(s.sent) + HeldData(s) + s.queue == (DataOf(s.sent) + HeldData(s)) + [] + s.queue;
        }
    }
  }

  lemma {:induction false} LoadFifo(s: State, beatSize: nat)
    requires Fifo(s) && s.place.Ready?
    ensures var t := Next(s, Load, 0, beatSize);
      DataOf(t.sent) + HeldData(t) + t.queue == DataOf(s.sent) + HeldData(s) + s.queue
  {
    if s.lastok {
      assert DataOf(s.sent) + [] + s.queue == DataOf(s.sent) + s.queue + [];
      assert s.queue == [] ==> DataOf(s.sent) + [] + [] == DataOf(s.sent) + s.queue + [];
    }
  }

  lemma {:induction false} FifoRuns(s: State, steps: seq<Step>, end: State, packetSize: nat, beatSize: nat)
    requires Fifo(s) && Runs(s, steps, end, packetSize, beatSize)
    ensures Fifo(end)
    decreases |steps|
  {
    if steps != [] {
      FifoStep(s, steps[0], packetSize, beatSize);
      FifoRuns(Next(s, steps[0], packetSize, beatSize), steps[1..], end, packetSize, beatSize);
    }
  }

  /** In every run: the bytes enqueued are the data sent, then the data held, then the queue, in
      order; the socket is closed whenever try_connect is entered, so its assertion never fires;
      and a held batch changes only by being sent completely. */
  lemma {:induction false} FifoAndDiscipline(steps: seq<Step>, s: State, packetSize: nat, beatSize: nat)
    requires Runs(START, steps, s, packetSize, beatSize)
    ensures Concat(s.enqueued) == DataOf(s.sent) + HeldData(s) + s.queue
    ensures s.place.Connecting? ==> !s.sockOpen
    ensures forall step :: Enabled(s, step, packetSize) && Pending(s) ==> (
      var t := Next(s, step, packetSize, beatSize);
      (Pending(t) && t.held == s.held && t.sent == s.sent) || (t.lastok && t.sent == s.sent + [s.held]))
  {
    FifoRuns(START, steps, s, packetSize, beatSize);
  }

  // ----- what each connection carries -----

  /** A closed connection: the batches sent whole on it, then the batch torn by the failing send and
      how many of its bytes were accepted. */
  datatype Conn = Conn(whole: seq<Batch>, torn: Batch, part: nat)

  function Joined(whole: seq<Batch>): Bytes {
    if whole == [] then [] else Joined(whole[..|whole| - 1]) + whole[|whole| - 1].bytes
  }

  function AllWhole(closed: seq<Conn>): seq<Batch> {
    if closed == [] then [] else AllWhole(closed[..|closed| - 1]) + closed[|closed| - 1].whole
  }

  /** The batch a closed connection carried from its first byte on. */
  function FirstOf(c: Conn): Batch {
    if c.whole != [] then c.whole[0] else c.torn
  }

  /** Whole batches, then a strict prefix of the torn one. */
  ghost predicate Carries(wire: Bytes, c: Conn) {
    c.part < |c.torn.bytes| && wire == Joined(c.whole) + c.torn.bytes[..c.part]
  }

  ghost predicate CarriesAll(wires: seq<Bytes>, closed: seq<Conn>) {
    |closed| <= |wires| && forall i :: 0 <= i < |closed| ==> Carries(wires[i], closed[i])
  }

  /** Each connection starts with the batch torn on the one before. */
  ghost predicate Restarts(closed: seq<Conn>) {
    forall i {:trigger closed[i]} :: 0 < i < |closed| ==> FirstOf(closed[i]) == closed[i - 1].torn
  }

  /** What the next or current connection owes after the closed ones: nothing if there are none,
      otherwise the batch last torn, which is still held or was the first it carried. */
  ghost predicate Owes(s: State, closed: seq<Conn>, whole: seq<Batch>) {
    if closed == [] then s.lastok
    else if whole == [] then !s.lastok && s.held == closed[|closed| - 1].torn
    else s.lastok && whole[0] == closed[|closed| - 1].torn
  }

  /** The whole history of the connections: the closed ones, and the batches sent whole on the open
      one. */
  ghost predicate Shape(s: State, closed: seq<Conn>, whole: seq<Batch>) {
    && CarriesAll(s.wires, closed) && Restarts(closed) && Owes(s, closed, whole)
    && (Pending(s) ==> s.held.bytes != [])
    && s.sent == AllWhole(closed) + whole
    && (if s.place.Connecting? then |s.wires| == |closed| && whole == []
        else |s.wires| == |closed| + 1 && s.wires[|closed|] == Joined(whole))
  }

  /** A short send that accepted a whole packet or more. */
  predicate TearsLate(s: State, step: Step, packetSize: nat) {
    step.Send? && packetSize <= step.accepted < |s.held.bytes|
  }

  /** Every short send of the run accepted less than one packet. */
  ghost predicate TearsEarly(s: State, steps: seq<Step>, packetSize: nat, beatSize: nat)
    decreases |steps|
  {
    steps != [] && Enabled(s, steps[0], packetSize) ==>
      && !TearsLate(s, steps[0], packetSize)
      && TearsEarly(Next(s, steps[0], packetSize, beatSize), steps[1..], packetSize, beatSize)
  }

  /** The same of closed connections. */
  ghost predicate EarlyTorn(closed: seq<Conn>, packetSize: nat) {
    forall c :: c in closed ==> c.part < packetSize
  }

  lemma {:induction false} JoinedSnoc(whole: seq<Batch>, b: Batch)
    ensures Joined(whole + [b]) == Joined(whole) + b.bytes
  {
    assert (whole + [b])[..|whole|] == whole;
  }

  lemma {:induction false} AllWholeSnoc(closed: seq<Conn>, c: Conn)
    ensures AllWhole(closed + [c]) == AllWhole(closed) + c.whole
  {
    assert (closed + [c])[..|closed|] == closed;
  }

  lemma {:induction false} ShortSend(s: State, closed: seq<Conn>, whole: seq<Batch>, n: int, packetSize: nat, beatSize: nat)
    requires Shape(s, closed, whole) && Enabled(s, Send(n), packetSize) && n < |s.held.bytes|
    ensures Shape(Next(s, Send(n), packetSize, beatSize), closed + [Conn(whole, s.held, if n < 0 then 0 else n)], [])
  {
    var torn := Conn(whole, s.held, if n < 0 then 0 else n);
    var t := Next(s, Send(n), packetSize, beatSize);
    AllWholeSnoc(closed, torn);
    assert AllWhole(closed + [torn]) + [] == AllWhole(closed) + whole;
    assert t.wires == s.wires[|closed| := Joined(whole) + s.held.bytes[..torn.part]];
    ClosedSnoc(s.wires, closed, torn);
  }

  lemma {:induction false} ClosedSnoc(wires: seq<Bytes>, closed: seq<Conn>, c: Conn)
    requires CarriesAll(wires, closed) && |wires| == |closed| + 1 && c.part < |c.torn.bytes|
    requires Restarts(closed) && (closed != [] ==> FirstOf(c) == closed[|closed| - 1].torn)
    ensures CarriesAll(wires[|closed| := Joined(c.whole) + c.torn.bytes[..c.part]], closed + [c])
    ensures Restarts(closed + [c])
  {
    var wires', closed' := wires[|closed| := Joined(c.whole) + c.torn.bytes[..c.part]], closed + [c];
    forall i | 0 <= i < |closed'| ensures Carries(wires'[i], closed'[i]) {
      if i < |closed| { assert Carries(wires[i], closed[i]); }
    }
    forall i {:trigger closed'[i]} | 0 < i < |closed'| ensures FirstOf(closed'[i]) == closed'[i - 1].torn {
      if i < |closed| { assert closed'[i] == closed[i]; }
    }
  }

  lemma {:induction false} FullSend(s: State, closed: seq<Conn>, whole: seq<Batch>, packetSize: nat, beatSize: nat)
    requires Shape(s, closed, whole) && s.place.Loaded?
    ensures Shape(Next(s, Send(|s.held.bytes|), packetSize, beatSize), closed, whole + [s.held])
  {
    var t := Next(s, Send(|s.held.bytes|), packetSize, beatSize);
    JoinedSnoc(whole, s.held);
    assert s.held.bytes[..|s.held.bytes|] == s.held.bytes;
    assert t.wires == s.wires[|closed| := Joined(whole + [s.held])];
    assert (AllWhole(closed) + whole) + [s.held] == AllWhole(closed) + (whole + [s.held]);
  }

  lemma {:induction false} EarlySnoc(closed: seq<Conn>, c: Conn, packetSize: nat)
    ensures EarlyTorn(closed + [c], packetSize) <==> EarlyTorn(closed, packetSize) && c.part < packetSize
  {
  }

  lemma {:induction false} StepShape(s: State, closed: seq<Conn>, whole: seq<Batch>, step: Step,
                                     packetSize: nat, beatSize: nat)
    returns (closed': seq<Conn>, whole': seq<Batch>)
    requires Shape(s, closed, whole) && Enabled(s, step, packetSize) && beatSize > 0 && packetSize > 0
    ensures Shape(Next(s, step, packetSize, beatSize), closed', whole')
    ensures EarlyTorn(closed', packetSize) <==> EarlyTorn(closed, packetSize) && !TearsLate(s, step, packetSize)
  {
    closed', whole' := closed, whole;
    if step.Send? {
      if step.accepted < |s.held.bytes| {
        var torn := Conn(whole, s.held, if step.accepted < 0 then 0 else step.accepted);
        ShortSend(s, closed, whole, step.accepted, packetSize, beatSize);
        EarlySnoc(closed, torn, packetSize);
        closed', whole' := closed + [torn], [];
      } else {
        FullSend(s, closed, whole, packetSize, beatSize);
        whole' := whole + [s.held];
      }
    }
  }

  lemma {:induction false} ShapeRuns(s: State, closed: seq<Conn>, whole: seq<Batch>, steps: seq<Step>, end: State,
                                     packetSize: nat, beatSize: nat)
    returns (closed': seq<Conn>, whole': seq<Batch>)
    requires Shape(s, closed, whole) && Runs(s, steps, end, packetSize, beatSize) && beatSize > 0 && packetSize > 0
    ensures Shape(end, closed', whole')
    ensures EarlyTorn(closed', packetSize)
       <==> EarlyTorn(closed, packetSize) && TearsEarly(s, steps, packetSize, beatSize)
    decreases |steps|
  {
    closed', whole' := closed, whole;
    if steps != [] {
      closed', whole' := StepShape(s, closed, whole, steps[0], packetSize, beatSize);
      closed', whole' :=
        ShapeRuns(Next(s, steps[0], packetSize, beatSize), closed', whole', steps[1..], end, packetSize, beatSize);
    }
  }

  /** In every run the wires split into connections of this shape: whole batches in the order they
      were sent, then at most a strict prefix of one batch, which the next connection carries again
      from its first byte. */
  lemma {:induction false} ConnectionShape(steps: seq<Step>, s: State, packetSize: nat, beatSize: nat)
    returns (closed: seq<Conn>, whole: seq<Batch>)
    requires Runs(START, steps, s, packetSize, beatSize) && beatSize > 0 && packetSize > 0
    ensures Shape(s, closed, whole)
    ensures EarlyTorn(closed, packetSize) <==> TearsEarly(START, steps, packetSize, beatSize)
  {
    closed, whole := ShapeRuns(START, [], [], steps, s, packetSize, beatSize);
  }

  // ----- what the merger completes from a connection -----

  /** The packets the merger may see: the enqueued ones and the all-zero heartbeat. */
  function Known(s: State, packetSize: nat): set<Bytes> {
    (set p | p in s.enqueued) + {Zeros(packetSize)}
  }

  ghost predicate FramedBatches(whole: seq<Batch>, packetSize: nat, known: set<Bytes>)
    requires packetSize > 0
  {
    forall i :: 0 <= i < |whole| ==> Framed(whole[i].bytes, packetSize, known)
  }

  ghost predicate Sound(s: State, packetSize: nat)
    requires packetSize > 0
  {
    && Framed(s.queue, packetSize, Known(s, packetSize))
    && (Pending(s) ==> Framed(s.held.bytes, packetSize, Known(s, packetSize)))
    && FramedBatches(s.sent, packetSize, Known(s, packetSize))
  }

  lemma {:induction false} SoundStep(s: State, step: Step, packetSize: nat, beatSize: nat)
    requires packetSize > 0 && beatSize % packetSize == 0
    requires Sound(s, packetSize) && Enabled(s, step, packetSize)
    ensures Sound(Next(s, step, packetSize, beatSize), packetSize)
  {
    match step {
      case Enqueue(p) => SoundEnqueue(s, p, packetSize, beatSize);
      case Load => SoundLoad(s, packetSize, beatSize);
      case _ =>
    }
  }

  lemma {:induction false} SoundLoad(s: State, packetSize: nat, beatSize: nat)
    requires packetSize > 0 && beatSize % packetSize == 0 && Sound(s, packetSize) && s.place.Ready?
    ensures Sound(Next(s, Load, packetSize, beatSize), packetSize)
  {
    var k := beatSize / packetSize;
    assert beatSize == k * packetSize;
    FramedZeros(k, packetSize, Known(s, packetSize));
  }

  lemma {:induction false} SoundEnqueue(s: State, p: Bytes, packetSize: nat, beatSize: nat)
    requires packetSize > 0 && Sound(s, packetSize) && |p| == packetSize
    ensures Sound(Next(s, Enqueue(p), packetSize, beatSize), packetSize)
  {
    var known, more := Known(s, packetSize), Known(Next(s, Enqueue(p), packetSize, beatSize), packetSize);
    assert p in s.enqueued + [p] && forall q :: q in s.enqueued ==> q in s.enqueued + [p];
    FramedGrows(s.queue, packetSize, known, more);
    FramedOne(p, packetSize, more);
    FramedAppend(s.queue, p, packetSize, more);
    if Pending(s) { FramedGrows(s.held.bytes, packetSize, known, more); }
    forall i | 0 <= i < |s.sent| ensures Framed(s.sent[i].bytes, packetSize, more) {
      FramedGrows(s.sent[i].bytes, packetSize, known, more);
    }
  }

  lemma {:induction false} SoundRuns(s: State, steps: seq<Step>, end: State, packetSize: nat, beatSize: nat)
    requires packetSize > 0 && beatSize % packetSize == 0
    requires Sound(s, packetSize) && Runs(s, steps, end, packetSize, beatSize)
    ensures Sound(end, packetSize)
    decreases |steps|
  {
    if steps != [] {
      SoundStep(s, steps[0], packetSize, beatSize);
      SoundRuns(Next(s, steps[0], packetSize, beatSize), steps[1..], end, packetSize, beatSize);
    }
  }

  lemma {:induction false} JoinedFramed(whole: seq<Batch>, packetSize: nat, known: set<Bytes>)
    requires packetSize > 0 && FramedBatches(whole, packetSize, known)
    ensures Framed(Joined(whole), packetSize, known)
  {
    if whole != [] {
      JoinedFramed(whole[..|whole| - 1], packetSize, known);
      FramedAppend(Joined(whole[..|whole| - 1]), whole[|whole| - 1].bytes, packetSize, known);
    }
  }

  lemma {:induction false} WholeAreSent(closed: seq<Conn>, i: nat)
    requires i < |closed|
    ensures forall b :: b in closed[i].whole ==> b in AllWhole(closed)
  {
    if i < |closed| - 1 {
      WholeAreSent(closed[..|closed| - 1], i);
    }
  }

  /** The batch torn on a closed connection is one that was sent later or is still held. */
  lemma {:induction false} TornIsKnown(s: State, closed: seq<Conn>, whole: seq<Batch>, i: nat)
    requires Shape(s, closed, whole) && i < |closed|
    ensures closed[i].torn in s.sent || (Pending(s) && closed[i].torn == s.held)
    decreases |closed| - i
  {
    if i + 1 < |closed| {
      var c := closed[i + 1];
      assert FirstOf(c) == closed[i].torn;
      if c.whole != [] {
        WholeAreSent(closed, i + 1);
        assert c.whole[0] in AllWhole(closed);
      } else {
        TornIsKnown(s, closed, whole, i + 1);
      }
    } else if whole != [] {
      assert whole[0] in s.sent;
    }
  }

  /** Every wire is a prefix of a stream of whole known packets. */
  lemma {:induction false} WireExtends(s: State, closed: seq<Conn>, whole: seq<Batch>, i: nat, packetSize: nat)
    returns (full: Bytes)
    requires packetSize > 0 && Sound(s, packetSize) && Shape(s, closed, whole) && i < |s.wires|
    ensures s.wires[i] <= full && Framed(full, packetSize, Known(s, packetSize))
  {
    var known := Known(s, packetSize);
    if i < |closed| {
      var c := closed[i];
      assert Carries(s.wires[i], c);
      WholeAreSent(closed, i);
      forall j | 0 <= j < |c.whole| ensures Framed(c.whole[j].bytes, packetSize, known) {
        assert c.whole[j] in s.sent;
      }
      JoinedFramed(c.whole, packetSize, known);
      TornIsKnown(s, closed, whole, i);
      FramedAppend(Joined(c.whole), c.torn.bytes, packetSize, known);
      full := Joined(c.whole) + c.torn.bytes;
    } else {
      forall j | 0 <= j < |whole| ensures Framed(whole[j].bytes, packetSize, known) {
        assert whole[j] in s.sent;
      }
      JoinedFramed(whole, packetSize, known);
      full := s.wires[i];
    }
  }

  /** Every packet of `mergerSize` bytes that can be completed from what any connection delivered, in
      any run, is one enqueued packet or all zero. `arrived` is however much of it was read. */
  ghost predicate NeverSplices(packetSize: nat, beatSize: nat, mergerSize: nat)
    requires mergerSize > 0
  {
    forall steps, s, i, arrived ::
      Runs(START, steps, s, packetSize, beatSize) && 0 <= i < |s.wires| && arrived <= s.wires[i] ==>
      forall c :: c in Chunks(arrived, mergerSize) ==> c in s.enqueued || c == Zeros(mergerSize)
  }

  lemma {:induction false} FramingHolds(packetSize: nat, beatSize: nat)
    requires packetSize > 0 && beatSize > 0 && beatSize % packetSize == 0
    ensures NeverSplices(packetSize, beatSize, packetSize)
  {
    forall steps, s, i, arrived
      | Runs(START, steps, s, packetSize, beatSize) && 0 <= i < |s.wires| && arrived <= s.wires[i]
      ensures forall c :: c in Chunks(arrived, packetSize) ==> c in s.enqueued || c == Zeros(packetSize)
    {
      SoundRuns(START, steps, s, packetSize, beatSize);
      var closed, whole := ConnectionShape(steps, s, packetSize, beatSize);
      var full := WireExtends(s, closed, whole, i, packetSize);
      PrefixChunksKnown(arrived, full, packetSize, Known(s, packetSize));
    }
  }

  // ----- exactly when framing holds -----

  lemma {:induction false} RunsAppend(s: State, a: seq<Step>, mid: State, b: seq<Step>, end: State,
                                      packetSize: nat, beatSize: nat)
    requires Runs(s, a, mid, packetSize, beatSize) && Runs(mid, b, end, packetSize, beatSize)
    ensures Runs(s, a + b, end, packetSize, beatSize)
    decreases |a|
  {
    if a == [] {
      assert a + b == b;
    } else {
      assert (a + b)[1..] == a[1..] + b;
      RunsAppend(Next(s, a[0], packetSize, beatSize), a[1..], mid, b, end, packetSize, beatSize);
    }
  }

  lemma {:induction false} RunsMore(s: State, steps: seq<Step>, mid: State, step: Step, packetSize: nat, beatSize: nat)
    returns (steps': seq<Step>, end: State)
    requires Runs(s, steps, mid, packetSize, beatSize) && Enabled(mid, step, packetSize)
    ensures Runs(s, steps', end, packetSize, beatSize) && end == Next(mid, step, packetSize, beatSize)
  {
    assert [step][1..] == [];
    end := Next(mid, step, packetSize, beatSize);
    RunsAppend(s, steps, mid, [step], end, packetSize, beatSize);
    steps' := steps + [step];
  }

  /** A heartbeat of another length shifts the packet behind it: one heartbeat, then one packet. */
  lemma {:induction false} BeatThenPacket(packetSize: nat, beatSize: nat, p: Bytes) returns (steps: seq<Step>, s: State)
    requires |p| == packetSize > 0 && beatSize > 0
    ensures Runs(START, steps, s, packetSize, beatSize)
    ensures s.wires == [Zeros(beatSize) + p] && s.enqueued == [p]
  {
    steps, s := [], START;
    steps, s := RunsMore(START, steps, s, ConnectWorks, packetSize, beatSize);
    steps, s := RunsMore(START, steps, s, Load, packetSize, beatSize);
    steps, s := RunsMore(START, steps, s, Send(beatSize), packetSize, beatSize);
    assert Zeros(beatSize)[..beatSize] == Zeros(beatSize) && [] + Zeros(beatSize) == Zeros(beatSize);
    assert s.wires == [Zeros(beatSize)];
    steps, s := RunsMore(START, steps, s, Enqueue(p), packetSize, beatSize);
    assert [] + p == p && s.queue == p;
    steps, s := RunsMore(START, steps, s, Load, packetSize, beatSize);
    assert s.held == Batch(p, false);
    steps, s := RunsMore(START, steps, s, Send(packetSize), packetSize, beatSize);
    assert p[..packetSize] == p;
  }

  lemma {:induction false} Splices(packetSize: nat, beatSize: nat)
    requires packetSize > 0 && beatSize > 0 && beatSize % packetSize != 0
    ensures !NeverSplices(packetSize, beatSize, packetSize)
  {
    var steps, s := BeatThenPacket(packetSize, beatSize, Ones(packetSize));
    var k, wire := beatSize / packetSize, s.wires[0];
    assert k * packetSize < beatSize < k * packetSize + packetSize;
    ChunkAt(wire, packetSize, k);
    var c := Chunks(wire, packetSize)[k];
    assert c[0] == wire[k * packetSize] == 0 != Ones(packetSize)[0];
    assert c[packetSize - 1] == wire[k * packetSize + packetSize - 1] == 1 != Zeros(packetSize)[packetSize - 1];
    assert c in Chunks(wire, packetSize) && c !in s.enqueued && c != Zeros(packetSize);
    assert wire <= s.wires[0];
  }

  function Ones(n: nat): (b: Bytes)
    ensures |b| == n && forall i :: 0 <= i < n ==> b[i] == 1
  {
    seq(n, _ => 1)
  }

  lemma {:induction false} EnqueueOnes(k: nat, packetSize: nat, beatSize: nat) returns (steps: seq<Step>, s: State)
    ensures Runs(START, steps, s, packetSize, beatSize)
    ensures s == START.(queue := Ones(k * packetSize), enqueued := s.enqueued)
    ensures forall p :: p in s.enqueued ==> |p| == packetSize
  {
    if k == 0 {
      steps, s := [], START;
      assert Ones(0 * packetSize) == [];
    } else {
      steps, s := EnqueueOnes(k - 1, packetSize, beatSize);
      assert k * packetSize == (k - 1) * packetSize + packetSize;
      assert Ones((k - 1) * packetSize) + Ones(packetSize) == Ones(k * packetSize);
      steps, s := RunsMore(START, steps, s, Enqueue(Ones(packetSize)), packetSize, beatSize);
    }
  }

  /** The queue of an unused receiver, sent whole on its first connection. */
  lemma {:induction false} SendQueue(before: seq<Step>, q: Bytes, enqueued: seq<Bytes>, packetSize: nat, beatSize: nat)
    returns (steps: seq<Step>, s: State)
    requires q != [] && Runs(START, before, START.(queue := q, enqueued := enqueued), packetSize, beatSize)
    ensures Runs(START, steps, s, packetSize, beatSize) && s.wires == [q] && s.enqueued == enqueued
  {
    steps, s := before, START.(queue := q, enqueued := enqueued);
    steps, s := RunsMore(START, steps, s, ConnectWorks, packetSize, beatSize);
    steps, s := RunsMore(START, steps, s, Load, packetSize, beatSize);
    steps, s := RunsMore(START, steps, s, Send(|q|), packetSize, beatSize);
    assert q[..|q|] == q && [] + q == q;
  }

  lemma {:induction false} AtLeast(a: nat, b: nat)
    requires b > 0
    ensures a * b >= a
  {
  }

  /** A merger that reads another length than the receiver enqueues completes foreign packets. */
  lemma {:induction false} OtherSizeSplices(packetSize: nat, beatSize: nat, mergerSize: nat)
    requires packetSize > 0 && mergerSize > 0 && mergerSize != packetSize
    ensures !NeverSplices(packetSize, beatSize, mergerSize)
  {
    var steps, s := EnqueueOnes(mergerSize, packetSize, beatSize);
    var wire := Ones(mergerSize * packetSize);
    AtLeast(mergerSize, packetSize);
    steps, s := SendQueue(steps, wire, s.enqueued, packetSize, beatSize);
    var c := wire[..mergerSize];
    assert c == Chunks(wire, mergerSize)[0];
    assert |c| != packetSize && c[0] == 1 != Zeros(mergerSize)[0];
    assert c in Chunks(wire, mergerSize) && c !in s.enqueued && wire <= s.wires[0];
  }

  /** The merger never sees a spliced packet, in any run and however the bytes arrive, if and only
      if it reads the length the receiver enqueues and the heartbeat is a whole number of those. */
  lemma {:induction false} FramingIff(packetSize: nat, beatSize: nat, mergerSize: nat)
    requires packetSize > 0 && beatSize > 0 && mergerSize > 0
    ensures NeverSplices(packetSize, beatSize, mergerSize) <==> mergerSize == packetSize && beatSize % mergerSize == 0
  {
    if mergerSize != packetSize {
      OtherSizeSplices(packetSize, beatSize, mergerSize);
    } else if beatSize % packetSize == 0 {
      FramingHolds(packetSize, beatSize);
    } else {
      Splices(packetSize, beatSize);
    }
  }

  // ----- delivery -----

  /** The packets completed from all connections, in the order of the connections. */
  function AllChunks(wires: seq<Bytes>, size: nat): seq<Bytes>
    requires size > 0
  {
    if wires == [] then [] else AllChunks(wires[..|wires| - 1], size) + Chunks(wires[|wires| - 1], size)
  }

  lemma {:induction false} JoinedAppend(a: seq<Batch>, b: seq<Batch>)
    ensures Joined(a + b) == Joined(a) + Joined(b)
  {
    if b == [] {
      assert a + b == a;
    } else {
      assert (a + b)[..|a + b| - 1] == a + b[..|b| - 1];
      JoinedAppend(a, b[..|b| - 1]);
    }
  }

  lemma {:induction false} EarlyIffNoChunk(torn: Bytes, part: nat, size: nat)
    requires size > 0 && part <= |torn|
    ensures Chunks(torn[..part], size) == [] <==> part < size
  {
  }

  /** `all` holds the packets of `sent`, and no others if and only if `early`. */
  ghost predicate Covers(all: seq<Bytes>, sent: seq<Bytes>, early: bool) {
    Within(sent, all) && if early then all == sent else |all| > |sent|
  }

  lemma {:induction false} CoversMore(all: seq<Bytes>, sent: seq<Bytes>, early: bool, whole: seq<Bytes>, extra: seq<Bytes>)
    requires Covers(all, sent, early)
    ensures Covers((all + whole) + extra, sent + whole, early && extra == [])
  {
    WithinMore(sent, all, whole);
    WithinLonger(sent + whole, all + whole, extra);
  }

  lemma {:induction false} CarriesInit(wires: seq<Bytes>, init: seq<Conn>, c: Conn)
    requires |wires| == |init| + 1 && CarriesAll(wires, init + [c])
    ensures CarriesAll(wires[..|init|], init) && Carries(wires[|init|], c)
  {
    var closed := init + [c];
    assert forall i :: 0 <= i < |init| ==> init[i] == closed[i] && wires[..|init|][i] == wires[i];
    assert closed[|init|] == c;
  }

  /** The packets completed from closed connections: those of the whole batches in order, and what a
      late tear left behind. */
  lemma {:induction false} ClosedChunks(wires: seq<Bytes>, closed: seq<Conn>, size: nat, known: set<Bytes>)
    requires size > 0 && |wires| == |closed| && CarriesAll(wires, closed)
    requires forall c :: c in closed ==> FramedBatches(c.whole, size, known)
    ensures Framed(Joined(AllWhole(closed)), size, known)
    ensures Covers(AllChunks(wires, size), Chunks(Joined(AllWhole(closed)), size), EarlyTorn(closed, size))
  {
    if closed != [] {
      var init, c := closed[..|closed| - 1], closed[|closed| - 1];
      var before, all := Joined(AllWhole(init)), AllChunks(wires[..|init|], size);
      assert closed == init + [c] && c in closed;
      CarriesInit(wires, init, c);
      ClosedChunks(wires[..|init|], init, size, known);
      ConnChunks(wires[|init|], c, before, all, size, known);
      JoinedAppend(AllWhole(init), c.whole);
      EarlyIffNoChunk(c.torn.bytes, c.part, size);
      EarlySnoc(init, c, size);
      CoversMore(all, Chunks(before, size), EarlyTorn(init, size), Chunks(Joined(c.whole), size),
                 Chunks(c.torn.bytes[..c.part], size));
    }
  }

  lemma {:induction false} ConnChunks(wire: Bytes, c: Conn, before: Bytes, all: seq<Bytes>, size: nat, known: set<Bytes>)
    requires size > 0 && Carries(wire, c) && FramedBatches(c.whole, size, known) && Framed(before, size, known)
    ensures Framed(before + Joined(c.whole), size, known)
    ensures Chunks(before + Joined(c.whole), size) == Chunks(before, size) + Chunks(Joined(c.whole), size)
    ensures all + Chunks(wire, size) == (all + Chunks(Joined(c.whole), size)) + Chunks(c.torn.bytes[..c.part], size)
  {
    JoinedFramed(c.whole, size, known);
    FramedAppend(before, Joined(c.whole), size, known);
    ChunksAppend(before, Joined(c.whole), size, known);
    ChunksAppend(Joined(c.whole), c.torn.bytes[..c.part], size, known);
  }

  lemma {:induction false} ClosedFramed(s: State, closed: seq<Conn>, whole: seq<Batch>, size: nat)
    requires size > 0 && Sound(s, size) && Shape(s, closed, whole)
    ensures forall c :: c in closed ==> FramedBatches(c.whole, size, Known(s, size))
    ensures CarriesAll(s.wires[..|closed|], closed)
  {
    forall c | c in closed ensures FramedBatches(c.whole, size, Known(s, size)) {
      var i :| 0 <= i < |closed| && closed[i] == c;
      WholeAreSent(closed, i);
      forall j | 0 <= j < |c.whole| ensures Framed(c.whole[j].bytes, size, Known(s, size)) {
        assert c.whole[j] in s.sent;
      }
    }
    assert forall i :: 0 <= i < |closed| ==> s.wires[..|closed|][i] == s.wires[i];
  }

  /** The open connection adds the packets of the batches sent whole on it. */
  lemma {:induction false} OpenChunks(wires: seq<Bytes>, sent: seq<Batch>, whole: seq<Batch>, early: bool,
                                      size: nat, known: set<Bytes>)
    requires size > 0 && Framed(Joined(sent), size, known)
    requires Covers(AllChunks(wires, size), Chunks(Joined(sent), size), early)
    ensures Covers(AllChunks(wires + [Joined(whole)], size), Chunks(Joined(sent + whole), size), early)
  {
    var all, open := AllChunks(wires, size), Chunks(Joined(whole), size);
    JoinedAppend(sent, whole);
    ChunksAppend(Joined(sent), Joined(whole), size, known);
    CoversMore(all, Chunks(Joined(sent), size), early, open, []);
    assert (all + open) + [] == all + open;
    assert (wires + [Joined(whole)])[..|wires|] == wires;
  }

  lemma {:induction false} WiresSplit(s: State, closed: seq<Conn>, whole: seq<Batch>)
    requires Shape(s, closed, whole)
    ensures s.wires == s.wires[..|closed|] + if s.place.Connecting? then [] else [Joined(whole)]
    ensures s.sent == AllWhole(closed) + whole && (s.place.Connecting? ==> whole == [])
  {
  }

  lemma {:induction false} ConnsChunks(wires: seq<Bytes>, closed: seq<Conn>, whole: seq<Batch>, size: nat, known: set<Bytes>)
    requires size > 0 && |wires| == |closed| && CarriesAll(wires, closed)
    requires forall c :: c in closed ==> FramedBatches(c.whole, size, known)
    ensures var (sent, early) := (Chunks(Joined(AllWhole(closed) + whole), size), EarlyTorn(closed, size));
      && Covers(AllChunks(wires + [Joined(whole)], size), sent, early)
      && (whole == [] ==> Covers(AllChunks(wires + [], size), sent, early))
  {
    ClosedChunks(wires, closed, size, known);
    OpenChunks(wires, AllWhole(closed), whole, EarlyTorn(closed, size), size, known);
    assert wires + [] == wires && AllWhole(closed) + [] == AllWhole(closed);
  }

  lemma {:induction false} SentChunks(s: State, closed: seq<Conn>, whole: seq<Batch>, size: nat)
    requires size > 0 && Sound(s, size) && Shape(s, closed, whole)
    ensures Covers(AllChunks(s.wires, size), Chunks(Joined(s.sent), size), EarlyTorn(closed, size))
  {
    ClosedFramed(s, closed, whole, size);
    WiresSplit(s, closed, whole);
    ConnsChunks(s.wires[..|closed|], closed, whole, size, Known(s, size));
  }

  /** No packet of a batch that was sent completely is lost on the way to the merger, however many
      sends were torn: in order and with their repetitions they are among the packets completed. */
  lemma {:induction false} SentIsDelivered(steps: seq<Step>, s: State, packetSize: nat, beatSize: nat)
    requires packetSize > 0 && beatSize > 0 && beatSize % packetSize == 0
    requires Runs(START, steps, s, packetSize, beatSize)
    ensures Within(Chunks(Joined(s.sent), packetSize), AllChunks(s.wires, packetSize))
    ensures multiset(Chunks(Joined(s.sent), packetSize)) <= multiset(AllChunks(s.wires, packetSize))
  {
    SoundRuns(START, steps, s, packetSize, beatSize);
    var closed, whole := ConnectionShape(steps, s, packetSize, beatSize);
    SentChunks(s, closed, whole, packetSize);
    WithinBag(Chunks(Joined(s.sent), packetSize), AllChunks(s.wires, packetSize));
  }

  lemma {:induction false} EnqueuedSizes(s: State, steps: seq<Step>, end: State, packetSize: nat, beatSize: nat)
    requires Runs(s, steps, end, packetSize, beatSize) && forall p :: p in s.enqueued ==> |p| == packetSize
    ensures forall p :: p in end.enqueued ==> |p| == packetSize
    decreases |steps|
  {
    if steps != [] {
      EnqueuedSizes(Next(s, steps[0], packetSize, beatSize), steps[1..], end, packetSize, beatSize);
    }
  }

  lemma {:induction false} ConcatChunks(parts: seq<Bytes>, size: nat, known: set<Bytes>)
    requires size > 0 && forall p :: p in parts ==> |p| == size && p in known
    ensures Framed(Concat(parts), size, known) && Chunks(Concat(parts), size) == parts
  {
    if parts != [] {
      var init, p := parts[..|parts| - 1], parts[|parts| - 1];
      assert parts == init + [p] && p in parts;
      ConcatChunks(init, size, known);
      FramedOne(p, size, known);
      FramedAppend(Concat(init), p, size, known);
      ChunksAppend(Concat(init), p, size, known);
      assert p[..size] == p && p[size..] == [] && Chunks(p, size) == [p];
    }
  }

  lemma {:induction false} DataChunks(sent: seq<Batch>, size: nat, known: set<Bytes>)
    requires size > 0 && FramedBatches(sent, size, known)
    ensures Framed(DataOf(sent), size, known)
    ensures Within(Chunks(DataOf(sent), size), Chunks(Joined(sent), size))
  {
    if sent != [] {
      var init, b := sent[..|sent| - 1], sent[|sent| - 1];
      DataChunks(init, size, known);
      JoinedFramed(init, size, known);
      ChunksAppend(Joined(init), b.bytes, size, known);
      if b.heartbeat {
        assert DataOf(init) + [] == DataOf(init);
        WithinLonger(Chunks(DataOf(init), size), Chunks(Joined(init), size), Chunks(b.bytes, size));
      } else {
        FramedAppend(DataOf(init), b.bytes, size, known);
        ChunksAppend(DataOf(init), b.bytes, size, known);
        WithinMore(Chunks(DataOf(init), size), Chunks(Joined(init), size), Chunks(b.bytes, size));
      }
    }
  }

  lemma {:induction false} FramedHeld(s: State, size: nat)
    requires size > 0 && Sound(s, size)
    ensures Framed(HeldData(s), size, Known(s, size))
  {
  }

  /** Every packet ever enqueued is completed at the merger, is held, or waits in the queue: in order
      they are the packets of the data sent, of the data held and of the queue, and those of the data
      sent are completed in that order, each as often as it was sent. */
  lemma {:induction false} EnqueuedIsDelivered(steps: seq<Step>, s: State, packetSize: nat, beatSize: nat)
    requires packetSize > 0 && beatSize > 0 && beatSize % packetSize == 0
    requires Runs(START, steps, s, packetSize, beatSize)
    ensures s.enqueued
         == (Chunks(DataOf(s.sent), packetSize) + Chunks(HeldData(s), packetSize)) + Chunks(s.queue, packetSize)
    ensures Within(Chunks(DataOf(s.sent), packetSize), AllChunks(s.wires, packetSize))
    ensures multiset(Chunks(DataOf(s.sent), packetSize)) <= multiset(AllChunks(s.wires, packetSize))
  {
    var known := Known(s, packetSize);
    SoundRuns(START, steps, s, packetSize, beatSize);
    FifoRuns(START, steps, s, packetSize, beatSize);
    EnqueuedSizes(START, steps, s, packetSize, beatSize);
    ConcatChunks(s.enqueued, packetSize, known);
    DataChunks(s.sent, packetSize, known);
    FramedHeld(s, packetSize);
    FramedAppend(DataOf(s.sent), HeldData(s), packetSize, known);
    ChunksAppend(DataOf(s.sent) + HeldData(s), s.queue, packetSize, known);
    ChunksAppend(DataOf(s.sent), HeldData(s), packetSize, known);
    SentIsDelivered(steps, s, packetSize, beatSize);
    WithinWithin(Chunks(DataOf(s.sent), packetSize), Chunks(Joined(s.sent), packetSize), AllChunks(s.wires, packetSize));
    WithinBag(Chunks(DataOf(s.sent), packetSize), AllChunks(s.wires, packetSize));
  }

  /** The packets completed are exactly those of the batches sent completely, once each and in order,
      if and only if every short send accepted less than one packet. */
  lemma {:induction false} ExactlyOnceIff(steps: seq<Step>, s: State, packetSize: nat, beatSize: nat)
    requires packetSize > 0 && beatSize > 0 && beatSize % packetSize == 0
    requires Runs(START, steps, s, packetSize, beatSize)
    ensures AllChunks(s.wires, packetSize) == Chunks(Joined(s.sent), packetSize)
       <==> TearsEarly(START, steps, packetSize, beatSize)
  {
    SoundRuns(START, steps, s, packetSize, beatSize);
    var closed, whole := ConnectionShape(steps, s, packetSize, beatSize);
    SentChunks(s, closed, whole, packetSize);
  }

  /** A late tear, the smallest example: a packet enqueued once arrives complete on two connections. */
  lemma {:induction false} PacketsMayRepeat(p: Bytes, q: Bytes, packetSize: nat, beatSize: nat)
    returns (steps: seq<Step>, s: State)
    requires |p| == |q| == packetSize > 0
    ensures Runs(START, steps, s, packetSize, beatSize)
    ensures s.enqueued == [p, q] && s.wires == [p, p + q]
    ensures s.sent == [Batch(p + q, false)]
  {
    steps, s := [], START;
    steps, s := RunsMore(START, steps, s, Enqueue(p), packetSize, beatSize);
    steps, s := RunsMore(START, steps, s, Enqueue(q), packetSize, beatSize);
    assert [] + p + q == p + q;
    steps, s := RunsMore(START, steps, s, ConnectWorks, packetSize, beatSize);
    steps, s := RunsMore(START, steps, s, Load, packetSize, beatSize);
    steps, s := RunsMore(START, steps, s, Send(packetSize), packetSize, beatSize);
    assert (p + q)[..packetSize] == p && s.wires == [p];
    steps, s := RunsMore(START, steps, s, ConnectWorks, packetSize, beatSize);
    steps, s := RunsMore(START, steps, s, Load, packetSize, beatSize);
    steps, s := RunsMore(START, steps, s, Send(2 * packetSize), packetSize, beatSize);
    assert (p + q)[..2 * packetSize] == p + q && [] + (p + q) == p + q && s.wires == [p, p + q];
  }

  // ----- the code -----

  /** What the sender thread meets: a packet put into the queue by the radio thread, or the outcome of
      its own next step, with the descriptor that socket would give. */
  datatype Stimulus = Arrives(packet: Bytes) | Proceed(fd: nat, outcome: int)

  /** The step that follows. A negative outcome is a failure; send accepts no more than it is given. */
  function StepFor(s: State, x: Stimulus): Step {
    match x
    case Arrives(p) => Enqueue(p)
    case Proceed(_, outcome) =>
      match s.place
      case Connecting => if outcome >= 0 then ConnectWorks else ConnectFails
      case Ready => Load
      case Loaded => Send(if outcome < 0 then -1 else if outcome < |s.held.bytes| then outcome else |s.held.bytes|)
  }

  function StepsFor(s: State, script: seq<Stimulus>, packetSize: nat, beatSize: nat): seq<Step>
    decreases |script|
  {
    if script == [] || !Enabled(s, StepFor(s, script[0]), packetSize) then [] else
      var step := StepFor(s, script[0]);
      [step] + StepsFor(Next(s, step, packetSize, beatSize), script[1..], packetSize, beatSize)
  }

  lemma {:induction false} StepsForSnoc(s: State, script: seq<Stimulus>, end: State, x: Stimulus,
                                        packetSize: nat, beatSize: nat)
    requires forall y :: y in script && y.Arrives? ==> |y.packet| == packetSize
    requires Runs(s, StepsFor(s, script, packetSize, beatSize), end, packetSize, beatSize)
    requires Enabled(end, StepFor(end, x), packetSize)
    ensures StepsFor(s, script + [x], packetSize, beatSize) == StepsFor(s, script, packetSize, beatSize) + [StepFor(end, x)]
    ensures Runs(s, StepsFor(s, script + [x], packetSize, beatSize), Next(end, StepFor(end, x), packetSize, beatSize),
                 packetSize, beatSize)
    decreases |script|
  {
    if script == [] {
      assert script + [x] == [x] && [x][1..] == [];
    } else {
      var step := StepFor(s, script[0]);
      var next := Next(s, step, packetSize, beatSize);
      var rest := StepsFor(next, script[1..], packetSize, beatSize);
      assert (script + [x])[1..] == script[1..] + [x] && ([step] + rest)[1..] == rest;
      StepsForSnoc(next, script[1..], end, x, packetSize, beatSize);
    }
  }

  /** What an outcome of connect or send does, in terms of the connections and the batches. A connect
      that works opens a connection. Loading takes the batch kept after a failure, else the queue,
      else a heartbeat. A send puts what was accepted on the connection; if that was all, the batch
      is sent, otherwise it is kept and the connection closed. */
  ghost predicate Outcome(s: State, t: State, outcome: int, beatSize: nat) {
    && t.enqueued == s.enqueued
    && match s.place {
      case Connecting =>
        && t.sent == s.sent && t.held == s.held && t.lastok == s.lastok && t.queue == s.queue
        && (if outcome >= 0 then t.place == Ready && t.sockOpen && t.wires == s.wires + [[]]
            else t.place == Connecting && !t.sockOpen && t.wires == s.wires)
      case Ready =>
        && t.sent == s.sent && t.wires == s.wires && t.place == Loaded && t.sockOpen == s.sockOpen
        && (if !s.lastok then t.held == s.held && t.queue == s.queue
            else t.queue == []
                 && t.held == (if s.queue == [] then Batch(Zeros(beatSize), true) else Batch(s.queue, false)))
      case Loaded =>
        && s.wires != [] && t.queue == s.queue && t.held == s.held
        && var n, last := |s.held.bytes|, |s.wires| - 1;
           if outcome >= n then
             t.sent == s.sent + [s.held] && t.lastok && t.place == Ready && t.sockOpen == s.sockOpen
             && t.wires == s.wires[last := s.wires[last] + s.held.bytes]
           else
             t.sent == s.sent && !t.lastok && t.place == Connecting && !t.sockOpen
             && t.wires == s.wires[last := s.wires[last] + s.held.bytes[..if outcome < 0 then 0 else outcome]]
    }
  }

  lemma {:induction false} StepHasOutcome(s: State, fd: nat, outcome: int, packetSize: nat, beatSize: nat)
    requires Fifo(s)
    ensures Enabled(s, StepFor(s, Proceed(fd, outcome)), packetSize)
    ensures Outcome(s, Next(s, StepFor(s, Proceed(fd, outcome)), packetSize, beatSize), outcome, beatSize)
  {
    if s.place.Loaded? {
      assert s.held.bytes[..|s.held.bytes|] == s.held.bytes;
    }
  }

  /** The packets that arrive during a script. */
  function Arrivals(script: seq<Stimulus>): seq<Bytes> {
    if script == [] then [] else (if script[0].Arrives? then [script[0].packet] else []) + Arrivals(script[1..])
  }

  lemma {:induction false} ScriptArrives(s: State, script: seq<Stimulus>, end: State, packetSize: nat, beatSize: nat)
    requires forall x :: x in script && x.Arrives? ==> |x.packet| == packetSize
    requires Runs(s, StepsFor(s, script, packetSize, beatSize), end, packetSize, beatSize)
    ensures end.enqueued == s.enqueued + Arrivals(script)
    decreases |script|
  {
    if script == [] {
      assert s.enqueued + [] == s.enqueued;
    } else {
      var step := StepFor(s, script[0]);
      var next := Next(s, step, packetSize, beatSize);
      assert script[0] in script;
      var rest := StepsFor(next, script[1..], packetSize, beatSize);
      assert ([step] + rest)[1..] == rest;
      ScriptArrives(next, script[1..], end, packetSize, beatSize);
    }
  }

  /** No packet arrives, and every connect works and every send takes up to n bytes. */
  ghost predicate FullScript(script: seq<Stimulus>, n: nat) {
    forall x :: x in script ==> x.Proceed? && x.outcome >= n
  }

  predicate AllSent(s: State) { s.queue == [] && HeldData(s) == [] }

  /** How many transitions it takes until all is sent. */
  function ToGo(s: State): nat {
    if AllSent(s) then 0
    else match s.place
      case Connecting => 1 + Sending(s)
      case Ready => Sending(s)
      case Loaded => 1 + if s.queue == [] then 0 else 2
  }

  function Sending(s: State): nat {
    if s.lastok || s.queue == [] then 2 else 4
  }

  /** A transition with a full outcome brings the end one step nearer. */
  lemma {:induction false} FullOutcome(s: State, fd: nat, outcome: int, n: nat, packetSize: nat, beatSize: nat)
    requires Fifo(s) && |s.held.bytes| <= n && |s.queue| <= n && beatSize <= n && outcome >= n
    ensures var t := Next(s, StepFor(s, Proceed(fd, outcome)), packetSize, beatSize);
      && |t.held.bytes| <= n && |t.queue| <= n && (ToGo(t) < ToGo(s) || ToGo(t) == 0)
  {
    StepHasOutcome(s, fd, outcome, packetSize, beatSize);
  }

  lemma {:induction false} FullFrom(s: State, script: seq<Stimulus>, end: State, n: nat, packetSize: nat, beatSize: nat)
    requires Fifo(s) && |s.held.bytes| <= n && |s.queue| <= n && beatSize <= n && FullScript(script, n)
    requires Runs(s, StepsFor(s, script, packetSize, beatSize), end, packetSize, beatSize) && |script| >= ToGo(s)
    ensures AllSent(end) && Fifo(end)
    decreases |script|
  {
    if script != [] {
      assert script[0] in script;
      var step := StepFor(s, script[0]);
      var next := Next(s, step, packetSize, beatSize);
      FullOutcome(s, script[0].fd, script[0].outcome, n, packetSize, beatSize);
      FifoStep(s, step, packetSize, beatSize);
      var rest := StepsFor(next, script[1..], packetSize, beatSize);
      assert ([step] + rest)[1..] == rest;
      FullFrom(next, script[1..], end, n, packetSize, beatSize);
    }
  }

  /** Five transitions with full outcomes send everything: to connect, to send what was held, and to
      send what was queued. */
  lemma {:induction false} ScriptDelivers(s: State, script: seq<Stimulus>, end: State, packetSize: nat, beatSize: nat)
    requires Fifo(s) && Runs(s, StepsFor(s, script, packetSize, beatSize), end, packetSize, beatSize)
    requires forall x :: x in script && x.Arrives? ==> |x.packet| == packetSize
    ensures FullScript(script, |s.held.bytes| + |s.queue| + beatSize) && |script| >= 5 ==>
      end.queue == [] && HeldData(end) == [] && DataOf(end.sent) == Concat(s.enqueued)
  {
    var n := |s.held.bytes| + |s.queue| + beatSize;
    if FullScript(script, n) && |script| >= 5 {
      FullFrom(s, script, end, n, packetSize, beatSize);
      ScriptArrives(s, script, end, packetSize, beatSize);
      NoArrivals(script, n);
      assert DataOf(end.sent) + [] + [] == DataOf(end.sent) && s.enqueued + [] == s.enqueued;
    }
  }

  lemma {:induction false} NoArrivals(script: seq<Stimulus>, n: nat)
    requires FullScript(script, n)
    ensures Arrivals(script) == []
  {
    if script != [] {
      assert script[0] in script;
      NoArrivals(script[1..], n);
    }
  }

  /** The statics of receive/sender.c. */
  class BatchSender {
    const packetSize: nat
    const beatSize: nat
    const sendQueue: Buffer<byte>
    var sockfd: int
    var lastok: bool
    var sendbuf: Bytes
    ghost var state: State

    ghost predicate Coupled()
      reads this, sendQueue, sendQueue.data
    {
      && sendQueue.Valid() && sendQueue.Contents() == state.queue
      && packetSize > 0 && beatSize > 0
      && Fifo(state)
      && (sockfd != -1 <==> state.sockOpen)
      && lastok == state.lastok && (Pending(state) ==> sendbuf == state.held.bytes)
    }

    /** Between two calls of the state machine. */
    ghost predicate Valid()
      reads this, sendQueue, sendQueue.data
    {
      Coupled() && !state.place.Loaded?
    }

    constructor (packetSize: nat, beatSize: nat)
      requires packetSize > 0 && beatSize > 0
      ensures Valid() && state == START && this.packetSize == packetSize && this.beatSize == beatSize
      ensures fresh(sendQueue) && fresh(sendQueue.data)
    {
      this.packetSize, this.beatSize := packetSize, beatSize;
      sendQueue := new Buffer();
      sockfd, lastok, sendbuf, state := -1, true, [], START;
    }

    /** add_to_queue, whenever its lock is free: also between the two halves of do_send. */
    method AddToQueue(packet: Bytes)
      requires Coupled() && |packet| == packetSize
      modifies this`state, sendQueue, sendQueue.data
      ensures Coupled() && state == Next(old(state), Enqueue(packet), packetSize, beatSize)
      ensures sendQueue.data == old(sendQueue.data) || fresh(sendQueue.data)
    {
      FifoStep(state, Enqueue(packet), packetSize, beatSize);
      sendQueue.Append(packet);
      state := Next(state, Enqueue(packet), packetSize, beatSize);
    }

    /** try_connect. The requirement on sockfd is the ASSERT in the source. `fd` is the descriptor
        the system gives, `connected` whether connect succeeds on it. */
    method TryConnect(fd: nat, connected: bool) returns (ok: bool)
      requires Valid() && state.place.Connecting? && sockfd == -1
      modifies this`sockfd, this`state
      ensures Valid() && ok == connected && sockfd == if connected then fd else -1
      ensures state == Next(old(state), if connected then ConnectWorks else ConnectFails, packetSize, beatSize)
    {
      FifoStep(state, if connected then ConnectWorks else ConnectFails, packetSize, beatSize);
      state := Next(state, if connected then ConnectWorks else ConnectFails, packetSize, beatSize);
      sockfd := fd;
      if !connected {
        sockfd := -1;
        return false;
      }
      return true;
    }

    /** do_send. `outcome` stands for the result of send: negative for an error, otherwise the
        number of bytes the system is willing to accept. */
    method DoSend(outcome: int) returns (ok: bool)
      requires Valid() && state.place.Ready?
      modifies this`sockfd, this`lastok, this`sendbuf, this`state, sendQueue`len
      ensures Valid()
      ensures var loaded := Next(old(state), Load, packetSize, beatSize);
        var n := if outcome < 0 then -1 else if outcome < |loaded.held.bytes| then outcome else |loaded.held.bytes|;
        && state == Next(loaded, Send(n), packetSize, beatSize)
        && (ok <==> n == |loaded.held.bytes|)
    {
      LoadBatch();
      ok := Transmit(if outcome < 0 then -1 else if outcome < |sendbuf| then outcome else |sendbuf|);
    }

    /** do_send up to the send: after a success a new batch, the whole queue or a heartbeat. */
    method LoadBatch()
      requires Coupled() && state.place.Ready?
      modifies this`sendbuf, this`state, sendQueue`len
      ensures Coupled() && state == Next(old(state), Load, packetSize, beatSize)
    {
      FifoStep(state, Load, packetSize, beatSize);
      state := Next(state, Load, packetSize, beatSize);
      if lastok {
        if sendQueue.len == 0 {
          sendbuf := Zeros(beatSize);
        } else {
          ghost var all := sendQueue.Contents();
          sendbuf := sendQueue.TakeSuffix(sendQueue.len);
          assert sendbuf == all && sendQueue.Contents() == [];
        }
      }
    }

    /** The send and what follows it. */
    method Transmit(sendedlen: int) returns (ok: bool)
      requires Coupled() && state.place.Loaded? && -1 <= sendedlen <= |sendbuf|
      modifies this`sockfd, this`lastok, this`state
      ensures Valid() && state == Next(old(state), Send(sendedlen), packetSize, beatSize)
      ensures (ok <==> sendedlen == |sendbuf|) && sockfd == if ok then old(sockfd) else -1
    {
      FifoStep(state, Send(sendedlen), packetSize, beatSize);
      state := Next(state, Send(sendedlen), packetSize, beatSize);
      if sendedlen < |sendbuf| {
        lastok := false;
        sockfd := -1;
        return false;
      }
      lastok := true;
      return true;
    }

    /** cron_send, with packets arriving at any point, for as long as the script lasts. Every run of
        the code is a run of the protocol, with the steps the script calls for. */
    method CronSend(script: seq<Stimulus>) returns (ghost steps: seq<Step>)
      requires Valid() && state.place.Connecting?
      requires forall x :: x in script && x.Arrives? ==> |x.packet| == packetSize
      modifies this`sockfd, this`lastok, this`sendbuf, this`state, sendQueue, sendQueue.data
      ensures Coupled() && steps == StepsFor(old(state), script, packetSize, beatSize)
      ensures Runs(old(state), steps, state, packetSize, beatSize)
      ensures state.enqueued == old(state).enqueued + Arrivals(script)
      ensures FullScript(script, |old(state).held.bytes| + |old(state).queue| + beatSize) && |script| >= 5 ==>
        state.queue == [] && HeldData(state) == [] && DataOf(state.sent) == Concat(old(state).enqueued)
    {
      var place := Connecting;
      steps := [];
      for i := 0 to |script|
        invariant Coupled() && place == state.place
        invariant sendQueue.data == old(sendQueue.data) || fresh(sendQueue.data)
        invariant steps == StepsFor(old(state), script[..i], packetSize, beatSize)
        invariant Runs(old(state), steps, state, packetSize, beatSize)
      {
        ghost var before := state;
        assert script[i] in script && script[..i + 1] == script[..i] + [script[i]];
        match script[i] {
          case Arrives(packet) => AddToQueue(packet);
          case Proceed(fd, outcome) => place := Proceed(place, fd, outcome);
        }
        StepsForSnoc(old(state), script[..i], before, script[i], packetSize, beatSize);
        steps := steps + [StepFor(before, script[i])];
      }
      assert script[..|script|] == script;
      ScriptArrives(old(state), script, state, packetSize, beatSize);
      ScriptDelivers(old(state), script, state, packetSize, beatSize);
    }

    /** From one blocking call of cron_send to the next: connect, then prepare a batch, then send it. */
    method Proceed(place: Place, fd: nat, outcome: int) returns (next: Place)
      requires Coupled() && place == state.place
      modifies this`sockfd, this`lastok, this`sendbuf, this`state, sendQueue`len
      ensures Coupled() && next == state.place
      ensures state == Next(old(state), StepFor(old(state), Stimulus.Proceed(fd, outcome)), packetSize, beatSize)
      ensures Outcome(old(state), state, outcome, beatSize)
      ensures sockfd == if state.place.Connecting? then -1 else if place.Connecting? then fd else old(sockfd)
    {
      StepHasOutcome(state, fd, outcome, packetSize, beatSize);
      match place {
        case Connecting =>
          var ok := TryConnect(fd, outcome >= 0);
          next := if ok then Ready else Connecting;
        case Ready =>
          LoadBatch();
          next := Loaded;
        case Loaded =>
          var ok := Transmit(if outcome < 0 then -1 else if outcome < |sendbuf| then outcome else |sendbuf|);
          next := if ok then Ready else Connecting;
      }
    }
  }
}
