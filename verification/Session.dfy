/** One student's session at the gate (merger/merger.h, merger/server.c, merger/timeout.c).

    The merger keeps thirteen bits per student: how many of the first five readings came from the
    master and from the slave antenna, and the last five readings as a rotating bit string. The
    specification keeps the whole history, oldest reading first, `true` for the slave antenna. */
module Session {

  const HEAD_SAMPLE_LEN: nat := 5

  /** In: slave, then master. Out: master, then slave. */
  datatype Verdict = Nothing | In | Out

  function Flip(v: Verdict): Verdict {
    match v
    case Nothing => Nothing
    case In => Out
    case Out => In
  }

  // ----- the packed state -----

  datatype State = State(master: nat, slave: nat, tail: nat)

  /** Two 4-bit counters and a 5-bit tail. */
  predicate FitsBitFields(s: State) {
    s.master < 16 && s.slave < 16 && s.tail < 32
  }

  /** `state2int`: the fields share one integer, the first field in the lowest bits. */
  function Pack(s: State): int
    requires FitsBitFields(s)
  {
    s.master + 16 * s.slave + 256 * s.tail
  }

  function Unpack(i: int): (s: State)
    ensures FitsBitFields(s)
  {
    State(i % 16, i / 16 % 16, i / 256 % 32)
  }

  lemma {:induction false} UnpackPack(s: State)
    requires FitsBitFields(s)
    ensures Unpack(Pack(s)) == s
  {
    assert Pack(s) / 16 == s.slave + 16 * s.tail;
    assert Pack(s) / 256 == s.tail;
  }

  /** One reading: rotate the tail, count while still in the head. Field writes wrap. */
  function AddReading(s: State, slave: bool): (r: State)
    requires FitsBitFields(s)
    ensures FitsBitFields(r)
  {
    var tail := (2 * s.tail + Bit(slave)) % 32;
    if s.master + s.slave < HEAD_SAMPLE_LEN then
      if slave then State(s.master, (s.slave + 1) % 16, tail) else State((s.master + 1) % 16, s.slave, tail)
    else
      State(s.master, s.slave, tail)
  }

  function Bit(b: bool): nat { if b then 1 else 0 }

  /** The field updates of handle_student. */
  method TakeReading(s: State, slave: bool) returns (r: State)
    requires FitsBitFields(s)
    ensures r == AddReading(s, slave)
  {
    r := s.(tail := (2 * s.tail + if slave then 1 else 0) % 32);
    if r.master + r.slave < HEAD_SAMPLE_LEN {
      if slave {
        r := r.(slave := (r.slave + 1) % 16);
      } else {
        r := r.(master := (r.master + 1) % 16);
      }
    }
  }

  function Popcount(n: nat): nat {
    if n == 0 then 0 else n % 2 + Popcount(n / 2)
  }

  /** The verdict `check_timers` draws from the packed state alone. */
  function Classify(s: State): Verdict {
    var headIsSlave := s.slave > s.master;
    var tailIsSlave := Popcount(s.tail) * 2 > s.master + s.slave;
    if headIsSlave == tailIsSlave then Nothing else if headIsSlave then In else Out
  }

  /** The bit-counting loop of `check_timers` and the comparison after it. */
  method Judge(s: State) returns (v: Verdict)
    ensures v == Classify(s)
  {
    var headIsSlave := s.slave > s.master;
    var tail, tailSlaveCount := s.tail, 0;
    while tail != 0
      invariant tailSlaveCount + Popcount(tail) == Popcount(s.tail)
    {
      tailSlaveCount := tailSlaveCount + tail % 2;
      tail := tail / 2;
    }
    var tailIsSlave := tailSlaveCount * 2 > s.master + s.slave;
    if headIsSlave != tailIsSlave {
      v := if headIsSlave then In else Out;
    } else {
      v := Nothing;
    }
  }

  // ----- the full history -----

  type History = seq<bool>

  function Slaves(h: History): (n: nat)
    ensures n <= |h|
  {
    if h == [] then 0 else Slaves(h[..|h| - 1]) + Bit(h[|h| - 1])
  }

  function Min(a: nat, b: nat): nat { if a < b then a else b }

  function First(h: History): History { h[..Min(HEAD_SAMPLE_LEN, |h|)] }

  function Last(h: History): History { h[|h| - Min(HEAD_SAMPLE_LEN, |h|)..] }

  predicate SlaveMajority(h: History) { 2 * Slaves(h) > |h| }

  /** The meaning of a session: more than five readings, and the majorities of the first five
      and the last five differ. */
  function VerdictOf(h: History): Verdict {
    if |h| <= HEAD_SAMPLE_LEN || SlaveMajority(First(h)) == SlaveMajority(Last(h)) then Nothing
    else if SlaveMajority(First(h)) then In
    else Out
  }

  /** The bit string of a history, latest reading in the lowest bit. */
  function BitString(h: History): nat {
    if h == [] then 0 else 2 * BitString(h[..|h| - 1]) + Bit(h[|h| - 1])
  }

  function StateAfter(h: History): (s: State)
    ensures FitsBitFields(s)
  {
    if h == [] then State(0, 0, 0) else AddReading(StateAfter(h[..|h| - 1]), h[|h| - 1])
  }

  // ----- counting -----

  lemma {:induction false} SlavesAppend(a: History, b: History)
    ensures Slaves(a + b) == Slaves(a) + Slaves(b)
  {
    if b == [] {
      assert a + b == a;
    } else {
      assert (a + b)[..|a + b| - 1] == a + b[..|b| - 1];
      SlavesAppend(a, b[..|b| - 1]);
    }
  }

  lemma {:induction false} PopcountBitString(h: History)
    ensures Popcount(BitString(h)) == Slaves(h)
  {
    if h != [] { PopcountBitString(h[..|h| - 1]); }
  }

  lemma {:induction false} DropHighBit(high: nat, low: nat)
    requires low < 32
    ensures (32 * high + low) % 32 == low
  {
  }

  /** Shifting a sixth reading into a full tail and masking drops exactly the oldest one. */
  lemma {:induction false} RotateDropsOldest(w: History, slave: bool)
    requires |w| == 5
    ensures (2 * BitString(w) + Bit(slave)) % 32 == BitString(w[1..] + [slave])
  {
    var v := w[1..] + [slave];
    FiveBits(w);
    FiveBits(v);
    assert v[0] == w[1] && v[1] == w[2] && v[2] == w[3] && v[3] == w[4] && v[4] == slave;
    assert 2 * BitString(w) + Bit(slave) == 32 * Bit(w[0]) + BitString(v);
    DropHighBit(Bit(w[0]), BitString(v));
  }

  lemma {:induction false} FiveBits(w: History)
    requires |w| == 5
    ensures BitString(w) == 16 * Bit(w[0]) + 8 * Bit(w[1]) + 4 * Bit(w[2]) + 2 * Bit(w[3]) + Bit(w[4])
  {
    assert w[..4][..3] == w[..3] && w[..3][..2] == w[..2] && w[..2][..1] == w[..1] && w[..1][..0] == [];
    assert BitString(w[..1]) == Bit(w[0]);
    assert BitString(w[..2]) == 2 * BitString(w[..1]) + Bit(w[1]);
    assert BitString(w[..3]) == 2 * BitString(w[..2]) + Bit(w[2]);
    assert BitString(w[..4]) == 2 * BitString(w[..3]) + Bit(w[3]);
  }

  lemma {:induction false} ShortBits(w: History)
    requires |w| <= 5
    ensures BitString(w) < 32
  {
    if |w| == 5 {
      FiveBits(w);
    } else {
      ShorterBits(w, 4);
    }
  }

  lemma {:induction false} ShorterBits(w: History, n: nat)
    requires |w| <= n <= 4
    ensures BitString(w) < if n == 4 then 16 else if n == 3 then 8 else if n == 2 then 4 else if n == 1 then 2 else 1
  {
    if w != [] { ShorterBits(w[..|w| - 1], n - 1); }
  }

  // ----- exactness -----

  lemma {:induction false} WindowsGrow(g: History, b: bool)
    ensures |g| < 5 ==> First(g) == g == Last(g) && First(g + [b]) == g + [b] == Last(g + [b])
    ensures |g| >= 5 ==> First(g + [b]) == First(g) && Last(g + [b]) == Last(g)[1..] + [b]
  {
  }

  function ExactState(h: History): State {
    State(|First(h)| - Slaves(First(h)), Slaves(First(h)), BitString(Last(h)))
  }

  lemma {:induction false} ExactHeadStep(g: History, b: bool)
    requires |g| < 5
    ensures FitsBitFields(ExactState(g)) && AddReading(ExactState(g), b) == ExactState(g + [b])
  {
    WindowsGrow(g, b);
    ShortBits(g);
    ShortBits(g + [b]);
    assert (g + [b])[..|g|] == g;
  }

  lemma {:induction false} ExactTailStep(g: History, b: bool)
    requires |g| >= 5
    ensures FitsBitFields(ExactState(g)) && AddReading(ExactState(g), b) == ExactState(g + [b])
  {
    WindowsGrow(g, b);
    ShortBits(Last(g));
    RotateDropsOldest(Last(g), b);
  }

  /** The packed state is exact for histories of every length: the counters describe the first
      min(5, n) readings, the tail is the bit string of the last min(5, n), nothing ever wraps. */
  lemma {:induction false} StateIsExact(h: History)
    ensures StateAfter(h).slave == Slaves(First(h))
    ensures StateAfter(h).master == |First(h)| - Slaves(First(h))
    ensures StateAfter(h).tail == BitString(Last(h))
  {
    if h != [] {
      var g, b := h[..|h| - 1], h[|h| - 1];
      StateIsExact(g);
      assert h == g + [b];
      if |g| < 5 { ExactHeadStep(g, b); } else { ExactTailStep(g, b); }
    }
  }

  /** Thirteen bits give the same verdict as the full history. */
  lemma {:induction false} ClassifyIsExact(h: History)
    ensures Classify(StateAfter(h)) == VerdictOf(h)
  {
    StateIsExact(h);
    PopcountBitString(Last(h));
    if |h| <= 5 {
      assert First(h) == h == Last(h);
    }
  }

  // ----- what the verdict means at the gate -----

  function Repeat(b: bool, n: nat): (h: History)
    ensures |h| == n && forall i :: 0 <= i < n ==> h[i] == b
  {
    seq(n, _ => b)
  }

  lemma {:induction false} SlavesRepeat(b: bool, n: nat)
    ensures Slaves(Repeat(b, n)) == if b then n else 0
  {
    if n > 0 {
      assert Repeat(b, n)[..n - 1] == Repeat(b, n - 1);
      SlavesRepeat(b, n - 1);
    }
  }

  /** A clean crossing, `a` readings at one antenna and then `b` at the other, is reported
      exactly when each antenna saw the card at least three times, in the right direction. */
  lemma {:induction false} CleanCrossing(fromSlave: bool, a: nat, b: nat)
    ensures Classify(StateAfter(Repeat(fromSlave, a) + Repeat(!fromSlave, b)))
         == if a >= 3 && b >= 3 then (if fromSlave then In else Out) else Nothing
  {
    var h := Repeat(fromSlave, a) + Repeat(!fromSlave, b);
    ClassifyIsExact(h);
    if a + b > 5 {
      CrossingWindows(fromSlave, a, b);
      CrossingSlaves(fromSlave, Min(a, 5), 5 - Min(a, 5));
      CrossingSlaves(fromSlave, 5 - Min(b, 5), Min(b, 5));
    }
  }

  lemma {:induction false} CrossingWindows(fromSlave: bool, a: nat, b: nat)
    requires a + b > 5
    ensures var h := Repeat(fromSlave, a) + Repeat(!fromSlave, b);
      && First(h) == Repeat(fromSlave, Min(a, 5)) + Repeat(!fromSlave, 5 - Min(a, 5))
      && Last(h) == Repeat(fromSlave, 5 - Min(b, 5)) + Repeat(!fromSlave, Min(b, 5))
  {
  }

  lemma {:induction false} CrossingSlaves(fromSlave: bool, a: nat, b: nat)
    ensures Slaves(Repeat(fromSlave, a) + Repeat(!fromSlave, b)) == if fromSlave then a else b
  {
    SlavesAppend(Repeat(fromSlave, a), Repeat(!fromSlave, b));
    SlavesRepeat(fromSlave, a);
    SlavesRepeat(!fromSlave, b);
  }

  // ----- symmetries -----

  function Reverse(h: History): (r: History)
    ensures |r| == |h| && forall i :: 0 <= i < |h| ==> r[i] == h[|h| - 1 - i]
  {
    seq(|h|, i requires 0 <= i < |h| => h[|h| - 1 - i])
  }

  function Swap(h: History): (r: History)
    ensures |r| == |h| && forall i :: 0 <= i < |h| ==> r[i] == !h[i]
  {
    seq(|h|, i requires 0 <= i < |h| => !h[i])
  }

  lemma {:induction false} SlavesReverse(h: History)
    ensures Slaves(Reverse(h)) == Slaves(h)
  {
    if h != [] {
      var g, b := h[..|h| - 1], h[|h| - 1];
      assert Reverse(h) == [b] + Reverse(g);
      SlavesReverse(g);
      SlavesAppend([b], Reverse(g));
    }
  }

  lemma {:induction false} SlavesSwap(h: History)
    ensures Slaves(Swap(h)) == |h| - Slaves(h)
  {
    if h != [] {
      assert Swap(h)[..|h| - 1] == Swap(h[..|h| - 1]);
      SlavesSwap(h[..|h| - 1]);
    }
  }

  /** Walking the other way round: a session read backwards gets the opposite verdict. */
  lemma {:induction false} ReverseFlips(h: History)
    ensures Classify(StateAfter(Reverse(h))) == Flip(Classify(StateAfter(h)))
  {
    ClassifyIsExact(h);
    ClassifyIsExact(Reverse(h));
    ReverseWindows(h);
    SlavesReverse(First(h));
    SlavesReverse(Last(h));
  }

  lemma {:induction false} SwapWindows(h: History)
    ensures First(Swap(h)) == Swap(First(h)) && Last(Swap(h)) == Swap(Last(h))
  {
  }

  lemma {:induction false} ReverseWindows(h: History)
    ensures First(Reverse(h)) == Reverse(Last(h)) && Last(Reverse(h)) == Reverse(First(h))
  {
  }

  /** Exchanging the antennas gives the opposite verdict. */
  lemma {:induction false} SwapFlips(h: History)
    ensures Classify(StateAfter(Swap(h))) == Flip(Classify(StateAfter(h)))
  {
    ClassifyIsExact(h);
    ClassifyIsExact(Swap(h));
    SwapMajorities(h);
  }

  lemma {:induction false} SwapMajorities(h: History)
    ensures |h| > 5 ==> SlaveMajority(First(Swap(h))) == !SlaveMajority(First(h))
    ensures |h| > 5 ==> SlaveMajority(Last(Swap(h))) == !SlaveMajority(Last(h))
  {
    SwapWindows(h);
    SlavesSwap(First(h));
    SlavesSwap(Last(h));
  }

  lemma {:induction false} ReverseSwapKeeps(h: History)
    ensures Classify(StateAfter(Reverse(Swap(h)))) == Classify(StateAfter(h))
  {
    ReverseFlips(Swap(h));
    SwapFlips(h);
  }

  // ----- the C bit operations -----

  /** On machine words the shifts and masks of the source are the arithmetic used above. */
  lemma {:induction false} WordOperations(tail: bv16, action: bv16)
    requires tail < 32 && action < 2
    ensures ((tail << 1) + action) & ((1 << 5) - 1) == (2 * tail + action) % 32
    ensures tail & 1 == tail % 2 && tail >> 1 == tail / 2
  {
  }
}
