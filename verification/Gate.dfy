/** The parts put together: from the packets a receiver enqueues to the readings the merger handles,
    and from those readings to the text the cloud receives. */
module Gate {
  import opened Sessions
  import opened Framing
  import opened Wrappers
  import Accounting
  import Checksum
  import Hex
  import Merger
  import Receiver
  import Records
  import Url

  /** What msg_loop does about one readable connection. */
  datatype Served = Handled | Hangup | Fatal

  /** One turn of msg_loop for one connection: read a packet; close the connection if it stays
      incomplete, give up if the read fails, otherwise filter and handle the packet. */
  method ServeOne(m: Merger.Merger, sock: Socket, f: Checksum.Filter, slave: bool, now: int) returns (r: Served)
    requires m.Valid() && m.packetSize > 0 && sock !in m.Repr()
    modifies m.Repr(), sock
    ensures m.Valid()
    ensures var (before, size) := (StreamOf(old(sock.arrivals)), m.packetSize);
      && (r.Handled? <==> |before| >= size)
      && (r.Handled? ==>
          && StreamOf(sock.arrivals) == before[size..]
          && m.open == if Checksum.IsReading(f, before[..size])
                       then Observe(old(m.open), Hex.HexOf(before[..size]), slave, now)
                       else old(m.open))
      && (!r.Handled? ==> m.open == old(m.open) && (r.Fatal? <==> EndsInFailure(old(sock.arrivals))))
    ensures m.queue.data == old(m.queue.data) && m.queue.Contents() == old(m.queue.Contents())
  {
    var buf := new Hex.byte[m.packetSize];
    ghost var before := StreamOf(sock.arrivals);
    var readlen := sock.RecvN(buf, m.packetSize);
    if readlen == -1 { return Fatal; }
    if readlen < m.packetSize { return Hangup; }
    assert before[..m.packetSize] == buf[..] && before[m.packetSize..] == StreamOf(sock.arrivals);
    m.ReceivePacket(f, buf[..], slave, now);
    return Handled;
  }

  lemma {:induction false} ZerosAreNoReading(f: Checksum.Filter, size: nat)
    requires size > 0
    ensures !Checksum.IsReading(f, Zeros(size))
  {
  }

  /** Every reading the merger takes from a connection, in any run of the receiver, with any torn
      sends and any chunking on the way, is a packet the receiver enqueued, as long as the merger
      reads the length the receiver enqueues and the heartbeat is a whole number of those. */
  lemma {:induction false} ReadingsAreEnqueued(steps: seq<Receiver.Step>, s: Receiver.State, i: nat, arrivals: seq<Arrival>,
                            f: Checksum.Filter, packetSize: nat, beatSize: nat, mergerSize: nat)
    requires packetSize > 0 && beatSize > 0 && mergerSize == packetSize && beatSize % mergerSize == 0
    requires Receiver.Runs(Receiver.START, steps, s, packetSize, beatSize)
    requires i < |s.wires| && StreamOf(arrivals) <= s.wires[i]
    ensures forall c :: c in Chunks(StreamOf(arrivals), mergerSize) ==>
      |c| > 0 && (Checksum.IsReading(f, c) ==> c in s.enqueued)
  {
    Receiver.FramingHolds(packetSize, beatSize);
    ChunkSizes(StreamOf(arrivals), mergerSize);
    ZerosAreNoReading(f, mergerSize);
  }

  // ----- the text for the cloud -----

  ghost predicate OpenAmong(open: Open, known: iset<string>) {
    forall s :: s in open ==> s.id in known
  }

  ghost predicate ReadingsAmong(events: seq<Event>, known: iset<string>) {
    forall e :: e in events && e.Reading? ==> e.id in known
  }

  ghost predicate NotesAmong(notes: seq<Notification>, known: iset<string>) {
    forall n :: n in notes ==> n.id in known
  }

  lemma {:induction false} ReportIds(closed: Open, known: iset<string>)
    requires OpenAmong(closed, known)
    ensures NotesAmong(Reports(closed), known)
  {
    if closed != [] {
      assert closed[|closed| - 1] in closed;
      ReportIds(closed[..|closed| - 1], known);
    }
  }

  lemma {:induction false} ObserveIds(open: Open, id: string, slave: bool, now: int, known: iset<string>)
    requires OpenAmong(open, known) && id in known
    ensures OpenAmong(Observe(open, id, slave, now), known)
  {
    var next := Observe(open, id, slave, now);
    forall s | s in next ensures s.id in known {
      var i :| 0 <= i < |next| && next[i] == s;
      if IsOpen(open, id) {
        assert open[i] in open && s == Extend(open[i], id, slave, now);
      } else if i > 0 {
        assert s == open[i - 1] && open[i - 1] in open;
      }
    }
  }

  /** Only students that were read are ever notified. */
  lemma {:induction false} EmittedIds(open: Open, events: seq<Event>, known: iset<string>)
    requires OpenAmong(open, known) && ReadingsAmong(events, known)
    ensures NotesAmong(Accounting.Emitted(open, events), known)
    decreases |events|
  {
    if events != [] {
      var (next, notes) := SpecStep(open, events[0]);
      assert events[0] in events;
      match events[0] {
        case Reading(id, slave, now) => ObserveIds(open, id, slave, now, known);
        case Scan(now, timeout) =>
          ScanSplits(open, now, timeout);
          ReportIds(Closing(open, now, timeout), known);
      }
      EmittedIds(next, events[1..], known);
    }
  }

  ghost function PacketIds(idSize: nat): iset<string> { iset id: string | |id| == idSize && Records.IsPacketId(id) }

  ghost predicate PacketReadings(events: seq<Event>, idSize: nat) { ReadingsAmong(events, PacketIds(idSize)) }

  /** For every run on packet IDs: the text the merger queues parses back to exactly the
      notifications of the specification, and percent-encoding sends it unchanged. */
  lemma {:induction false} CloudTextIsExact(events: seq<Event>, idSize: nat)
    requires PacketReadings(events, idSize)
    ensures var text := Records.Encode(Accounting.Emitted([], events));
      && Records.Parse(text, idSize) == Some(Accounting.Emitted([], events))
      && Url.Ascii(text) && Url.UrlOf(text) == text
  {
    var notes := Accounting.Emitted([], events);
    EmittedIds([], events, PacketIds(idSize));
    assert forall i :: 0 <= i < |notes| ==> notes[i] in notes && notes[i].id in PacketIds(idSize);
    Records.ParseEncode(notes, idSize);
    Records.BatchIsUrlSafe(notes);
  }
}
