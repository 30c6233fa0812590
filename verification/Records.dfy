/** The notification records queued for the cloud: a student ID, '1' or '0', and a dot. */
module Records {
  import opened Wrappers
  import opened Session
  import opened Sessions
  import opened Growable
  import Hex
  import Url

  function Record(n: Notification): string {
    n.id + [if n.action then '1' else '0', '.']
  }

  function Encode(notes: seq<Notification>): string {
    if notes == [] then [] else Encode(notes[..|notes| - 1]) + Record(notes[|notes| - 1])
  }

  predicate IdsOf(notes: seq<Notification>, idSize: nat) {
    forall i :: 0 <= i < |notes| ==> |notes[i].id| == idSize
  }

  /** A buffer that only ever grew for whole records. */
  ghost predicate Uniform(queue: Buffer<char>, idSize: nat)
    reads queue
  {
    forall i :: 0 <= i < |queue.requests| ==> queue.requests[i] == idSize + 2
  }

  /** notify: appends one record in place. */
  method Notify(queue: Buffer<char>, n: Notification, idSize: nat)
    requires queue.Valid() && |n.id| == idSize
    modifies queue, queue.data
    ensures queue.Valid() && queue.Contents() == old(queue.Contents()) + Record(n)
    ensures queue.data == old(queue.data) || fresh(queue.data)
    ensures Uniform(queue, idSize) <== old(Uniform(queue, idSize))
    ensures queue.peak == if queue.len > old(queue.peak) then queue.len else old(queue.peak)
  {
    var requestSize := idSize + 2;
    queue.Reserve(requestSize);
    WriteRecord(queue.data, queue.len, n, requestSize);
    queue.len := queue.len + requestSize;
  }

  /** The three writes of notify: the ID, the action, the dot. */
  method WriteRecord(data: array<char>, at: nat, n: Notification, requestSize: nat)
    requires |n.id| + 2 == requestSize && at + requestSize <= data.Length
    modifies data
    ensures data[..at + requestSize] == old(data[..at]) + Record(n)
  {
    forall i | 0 <= i < |n.id| {
      data[at + i] := n.id[i];
    }
    data[at + requestSize - 2] := if n.action then '1' else '0';
    data[at + requestSize - 1] := '.';
  }

  /** Cuts a text into records of idSize + 2 characters; None unless it is whole records. */
  function Parse(text: string, idSize: nat): Option<seq<Notification>>
    decreases |text|
  {
    if text == [] then Some([])
    else if |text| < idSize + 2 || text[idSize] !in "01" || text[idSize + 1] != '.' then None
    else
      match Parse(text[idSize + 2..], idSize)
      case None => None
      case Some(rest) => Some([Notification(text[..idSize], text[idSize] == '1')] + rest)
  }

  lemma {:induction false} EncodeAppend(a: seq<Notification>, b: seq<Notification>)
    ensures Encode(a + b) == Encode(a) + Encode(b)
  {
    if b == [] {
      assert a + b == a;
    } else {
      assert (a + b)[..|a + b| - 1] == a + b[..|b| - 1];
      EncodeAppend(a, b[..|b| - 1]);
    }
  }

  lemma {:induction false} EncodeBoth(q: string, a: seq<Notification>, b: seq<Notification>)
    ensures q + Encode(a + b) == (q + Encode(a)) + Encode(b)
  {
    EncodeAppend(a, b);
  }

  lemma {:induction false} EncodeOne(n: Notification)
    ensures Encode([n]) == Record(n)
  {
    assert [n][..0] == [];
  }

  lemma {:induction false} EncodeLength(notes: seq<Notification>, idSize: nat)
    requires IdsOf(notes, idSize)
    ensures |Encode(notes)| == |notes| * (idSize + 2)
  {
    if notes != [] {
      EncodeLength(notes[..|notes| - 1], idSize);
      assert |notes| * (idSize + 2) == (|notes| - 1) * (idSize + 2) + (idSize + 2);
    }
  }

  lemma {:induction false} ParseRecord(n: Notification, text: string, idSize: nat)
    requires |n.id| == idSize
    ensures Parse(Record(n) + text, idSize)
         == match Parse(text, idSize) case None => None case Some(rest) => Some([n] + rest)
  {
    var s := Record(n) + text;
    assert s[idSize + 2..] == text && s[..idSize] == n.id;
  }

  /** A batch parses back to exactly the notifications it was made of. */
  lemma {:induction false} ParseEncode(notes: seq<Notification>, idSize: nat)
    requires IdsOf(notes, idSize)
    ensures Parse(Encode(notes), idSize) == Some(notes)
  {
    if notes != [] {
      var n, rest := notes[0], notes[1..];
      assert notes == [n] + rest && [n][..0] == [];
      EncodeAppend([n], rest);
      assert Encode([n]) == Record(n);
      ParseEncode(rest, idSize);
      ParseRecord(n, Encode(rest), idSize);
    }
  }

  /** Cutting an encoded queue at a multiple of the record size cuts between records. */
  lemma {:induction false} EncodeSplit(notes: seq<Notification>, idSize: nat, keep: nat)
    requires IdsOf(notes, idSize) && keep <= |notes|
    ensures keep * (idSize + 2) <= |Encode(notes)|
    ensures Encode(notes)[..keep * (idSize + 2)] == Encode(notes[..keep])
    ensures Encode(notes)[keep * (idSize + 2)..] == Encode(notes[keep..])
  {
    assert notes == notes[..keep] + notes[keep..];
    EncodeAppend(notes[..keep], notes[keep..]);
    EncodeLength(notes[..keep], idSize);
  }

  ghost predicate IsPacketId(id: string) {
    exists p :: id == Hex.HexOf(p)
  }

  lemma {:induction false} AllLiteral(a: string, b: string)
    requires forall i :: 0 <= i < |a| ==> Url.Literal(a[i])
    requires forall c :: c in b ==> Url.Literal(c)
    ensures forall i :: 0 <= i < |a + b| ==> Url.Literal((a + b)[i])
    ensures Url.Ascii(a + b) && Url.UrlOf(a + b) == a + b
  {
    forall i | 0 <= i < |a + b| ensures Url.Literal((a + b)[i]) {
      if i >= |a| { assert (a + b)[i] in b; }
    }
    Url.UnchangedIffLiteral(a + b);
  }

  /** Records of packet IDs need no escaping: percent-encoding sends a batch unchanged. */
  lemma {:induction false} BatchIsUrlSafe(notes: seq<Notification>)
    requires forall i :: 0 <= i < |notes| ==> IsPacketId(notes[i].id)
    ensures Url.Ascii(Encode(notes)) && Url.UrlOf(Encode(notes)) == Encode(notes)
    ensures forall i :: 0 <= i < |Encode(notes)| ==> Url.Literal(Encode(notes)[i])
  {
    if notes != [] {
      var init, n := notes[..|notes| - 1], notes[|notes| - 1];
      assert forall i :: 0 <= i < |init| ==> init[i] == notes[i];
      BatchIsUrlSafe(init);
      var p :| n.id == Hex.HexOf(p);
      Hex.HexOfIsHex(p);
      assert forall c :: c in Record(n) ==> Url.Literal(c);
      AllLiteral(Encode(init), Record(n));
    }
  }

  // ----- what the text of a session says -----

  /** What a finished session amounts to, as text: nothing for up to five readings or when the first
      and the last five have the same majority; otherwise the ID, 1 for a student who came from the
      slave antenna and 0 for one who came from the master antenna, and a dot. */
  function SessionText(id: string, h: History): string {
    if |h| <= 5 || (2 * Slaves(h[..5]) > 5) == (2 * Slaves(h[|h| - 5..]) > 5) then ""
    else if 2 * Slaves(h[..5]) > 5 then id + "1."
    else id + "0."
  }

  lemma {:induction false} VerdictText(id: string, h: History)
    ensures Encode(Report(id, VerdictOf(h))) == SessionText(id, h)
  {
    match VerdictOf(h) {
      case Nothing =>
      case In =>
        EncodeOne(Notification(id, true));
        assert ['1', '.'] == "1.";
      case Out =>
        EncodeOne(Notification(id, false));
        assert ['0', '.'] == "0.";
    }
  }

  /** The record written for a packed state is the text of the history it stands for. */
  lemma {:induction false} JudgedText(id: string, h: History)
    ensures Encode(JudgePacked(id, PackedState(h))) == SessionText(id, h)
  {
    UnpackPack(StateAfter(h));
    ClassifyIsExact(h);
    VerdictText(id, h);
  }

  /** A clean crossing from the slave to the master antenna is written as 1, the other way as 0. */
  lemma {:induction false} CrossingText(id: string, fromSlave: bool, a: nat, b: nat)
    ensures Encode(JudgePacked(id, PackedState(Repeat(fromSlave, a) + Repeat(!fromSlave, b))))
         == if a >= 3 && b >= 3 then id + (if fromSlave then "1." else "0.") else ""
  {
    var h := Repeat(fromSlave, a) + Repeat(!fromSlave, b);
    CleanCrossing(fromSlave, a, b);
    ClassifyIsExact(h);
    JudgedText(id, h);
    VerdictText(id, h);
    if a >= 3 && b >= 3 { CrossingMajorities(fromSlave, a, b); }
  }

  lemma {:induction false} CrossingMajorities(fromSlave: bool, a: nat, b: nat)
    requires a >= 3 && b >= 3
    ensures var h := Repeat(fromSlave, a) + Repeat(!fromSlave, b);
      (2 * Slaves(h[..5]) > 5 <==> fromSlave) && (2 * Slaves(h[|h| - 5..]) > 5 <==> !fromSlave)
  {
    CrossingWindows(fromSlave, a, b);
    CrossingSlaves(fromSlave, Min(a, 5), 5 - Min(a, 5));
    CrossingSlaves(fromSlave, 5 - Min(b, 5), Min(b, 5));
  }

  /** The text of the sessions a scan finds timed out, in list order. */
  function ScanText(open: Open, now: int, timeout: int): string {
    if open == [] then "" else
      var s := open[|open| - 1];
      ScanText(open[..|open| - 1], now, timeout)
      + if now - s.lastSeen >= timeout then SessionText(s.id, s.history) else ""
  }

  /** What a scan queues is exactly that text. */
  lemma {:induction false} ScanWrites(open: Open, now: int, timeout: int)
    ensures Encode(Reports(Closing(open, now, timeout))) == ScanText(open, now, timeout)
  {
    if open != [] {
      var init, s := open[..|open| - 1], open[|open| - 1];
      ScanWrites(init, now, timeout);
      if TimedOut(s, now, timeout) {
        ReportsSnoc(Closing(init, now, timeout), s);
        EncodeAppend(Reports(Closing(init, now, timeout)), Report(s.id, VerdictOf(s.history)));
        VerdictText(s.id, s.history);
      } else {
        assert Closing(init, now, timeout) + [] == Closing(init, now, timeout);
        assert ScanText(init, now, timeout) + "" == ScanText(init, now, timeout);
      }
    }
  }

  lemma {:induction false} ReportsSnoc(closed: Open, s: OpenSession)
    ensures Reports(closed + [s]) == Reports(closed) + Report(s.id, VerdictOf(s.history))
  {
    assert (closed + [s])[..|closed|] == closed;
    assert ReportsBy(closed + [s], ReportOf) == ReportsBy(closed, ReportOf) + ReportOf(s);
  }
}
