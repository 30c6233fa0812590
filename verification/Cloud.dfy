/** The cloud sender (merger/sender.c): one batch at a time is taken from the end of the shared
    notification queue and resent until the cloud acknowledges it.

    commit_notify_queue compares the queue length with http.max_data_len before it takes the lock,
    so notifications may arrive between the check and the take. The protocol is a state machine
    over the queue text; its steps are also proved for the code on the shared buffer. */
module Cloud {
  import opened Wrappers
  import opened Sessions
  import opened Growable
  import opened Records
  import opened Sequences
  import Accounting

  /** `Checked(n)`: past the unlocked check; n is the length to send, 0 for the whole queue.
      `Holding(batch)`: a batch was taken and is not acknowledged. */
  datatype Progress = Idle | Checked(sendLen: nat) | Holding(batch: string)

  /** The queue and the sender, with everything ever notified and acknowledged. */
  datatype State = State(queue: string, sender: Progress, notified: seq<Notification>, acked: seq<string>)

  datatype Step = Notify(n: Notification) | Check | Take | Fail | Acknowledge

  const START := State("", Idle, [], [])

  predicate Enabled(s: State, step: Step, idSize: nat) {
    match step
    case Notify(n) => |n.id| == idSize
    case Check => s.sender.Idle?
    case Take => s.sender.Checked? && s.sender.sendLen <= |s.queue|
    case Fail => s.sender.Holding?
    case Acknowledge => s.sender.Holding?
  }

  function Length(s: State): nat
    requires s.sender.Checked?
  {
    if s.sender.sendLen == 0 then |s.queue| else s.sender.sendLen
  }

  function Next(s: State, step: Step, idSize: nat, maxLen: nat): State
    requires Enabled(s, step, idSize)
  {
    match step
    case Notify(n) => s.(queue := s.queue + Record(n), notified := s.notified + [n])
    case Check =>
      if |s.queue| == 0 then s
      else s.(sender := Checked(if |s.queue| > maxLen then maxLen else 0))
    case Take =>
      var keep := |s.queue| - Length(s);
      s.(queue := s.queue[..keep], sender := Holding(s.queue[keep..]))
    case Fail => s
    case Acknowledge => s.(sender := Idle, acked := s.acked + [s.sender.batch])
  }

  ghost predicate Runs(s: State, steps: seq<Step>, end: State, idSize: nat, maxLen: nat)
    decreases |steps|
  {
    if steps == [] then s == end
    else Enabled(s, steps[0], idSize) && Runs(Next(s, steps[0], idSize, maxLen), steps[1..], end, idSize, maxLen)
  }

  // ----- the unlocked check is safe -----

  /** What the check promises still holds at the take, whatever was notified in between. */
  ghost predicate CheckHolds(s: State, maxLen: nat) {
    && (s.sender.Checked? ==> |s.queue| > 0 && (s.sender.sendLen > 0 ==> s.sender.sendLen == maxLen < |s.queue|))
    && (s.sender.Holding? ==> s.sender.batch != "")
  }

  lemma {:induction false} CheckKeeps(s: State, step: Step, idSize: nat, maxLen: nat)
    requires CheckHolds(s, maxLen) && Enabled(s, step, idSize)
    ensures CheckHolds(Next(s, step, idSize, maxLen), maxLen)
  {
  }

  lemma {:induction false} CheckHoldsInRuns(s: State, steps: seq<Step>, end: State, idSize: nat, maxLen: nat)
    requires CheckHolds(s, maxLen) && Runs(s, steps, end, idSize, maxLen)
    ensures CheckHolds(end, maxLen)
    decreases |steps|
  {
    if steps != [] {
      CheckKeeps(s, steps[0], idSize, maxLen);
      CheckHoldsInRuns(Next(s, steps[0], idSize, maxLen), steps[1..], end, idSize, maxLen);
    }
  }

  /** In every run: a sender past the check can always take, the batch it takes is nonempty and is
      the last max_data_len bytes or the entire queue, and nothing is lost from the queue. A held
      batch is given up only when it is acknowledged. */
  lemma {:induction false} TakesAreSafe(steps: seq<Step>, s: State, idSize: nat, maxLen: nat)
    requires Runs(START, steps, s, idSize, maxLen)
    ensures s.sender.Checked? ==>
      && Enabled(s, Take, idSize)
      && var t := Next(s, Take, idSize, maxLen);
         && t.queue + t.sender.batch == s.queue && |t.sender.batch| > 0
         && (|t.sender.batch| == maxLen || t.queue == "")
    ensures forall step :: Enabled(s, step, idSize) && s.sender.Holding? ==> (
      var t := Next(s, step, idSize, maxLen);
      t.sender == s.sender || (step == Acknowledge && t.acked == s.acked + [s.sender.batch]))
  {
    CheckHoldsInRuns(START, steps, s, idSize, maxLen);
  }

  // ----- conservation -----

  function Batch(s: State): string {
    if s.sender.Holding? then s.sender.batch else ""
  }

  /** Where every notified record is: queued, in the held batch, or in an acknowledged batch. */
  datatype Places = Places(queued: seq<Notification>, held: seq<Notification>, done: seq<seq<Notification>>)

  ghost predicate Accounts(s: State, p: Places, idSize: nat) {
    && IdsOf(p.queued, idSize) && IdsOf(p.held, idSize)
    && s.queue == Encode(p.queued) && Batch(s) == Encode(p.held)
    && |p.done| == |s.acked|
    && (forall i :: 0 <= i < |p.done| ==> IdsOf(p.done[i], idSize) && s.acked[i] == Encode(p.done[i]))
    && multiset(s.notified) == multiset(p.queued) + multiset(p.held) + multiset(Accounting.Flatten(p.done))
  }

  lemma {:induction false} Quotient(m: nat, r: nat) returns (n: nat)
    requires r > 0 && m % r == 0
    ensures m == n * r
  {
    n := m / r;
  }

  lemma {:induction false} Fewer(n: nat, k: nat, r: nat)
    requires n * r < k * r
    ensures n < k && k * r - n * r == (k - n) * r
  {
    if n >= k { Scale(k, n, r); }
  }

  /** Where a take cuts the queue: a whole number of records when max_data_len is one. */
  lemma {:induction false} TakeCut(s: State, p: Places, idSize: nat, maxLen: nat) returns (keep: nat)
    requires Accounts(s, p, idSize) && CheckHolds(s, maxLen) && s.sender.Checked?
    requires maxLen % (idSize + 2) == 0
    ensures keep <= |p.queued| && |s.queue| - Length(s) == keep * (idSize + 2)
  {
    EncodeLength(p.queued, idSize);
    if s.sender.sendLen == 0 {
      keep := 0;
    } else {
      var n := Quotient(maxLen, idSize + 2);
      Fewer(n, |p.queued|, idSize + 2);
      keep := |p.queued| - n;
    }
  }

  lemma {:induction false} Scale(a: nat, b: nat, r: nat)
    requires a <= b
    ensures a * r <= b * r
  {
  }

  lemma {:induction false} NoFactor(n: nat, r: nat)
    requires n * r == 0 && r > 0
    ensures n == 0
  {
  }

  /** Where a step moves the records: a notification joins the queue, a take moves its end into the
      batch, an acknowledgement moves the batch to the acknowledged ones. */
  ghost predicate Moves(p: Places, step: Step, q: Places) {
    match step
    case Notify(n) => q == p.(queued := p.queued + [n])
    case Take =>
      exists keep :: 0 <= keep <= |p.queued| && q == Places(p.queued[..keep], p.queued[keep..], p.done)
    case Acknowledge => q == Places(p.queued, [], p.done + [p.held])
    case _ => q == p
  }

  lemma {:induction false} NotifyAccounts(s: State, p: Places, n: Notification, idSize: nat, maxLen: nat) returns (q: Places)
    requires Accounts(s, p, idSize) && Enabled(s, Notify(n), idSize)
    ensures Accounts(Next(s, Notify(n), idSize, maxLen), q, idSize) && Moves(p, Notify(n), q)
  {
    EncodeAppend(p.queued, [n]);
    EncodeOne(n);
    q := p.(queued := p.queued + [n]);
  }

  lemma {:induction false} AcknowledgeAccounts(s: State, p: Places, idSize: nat, maxLen: nat) returns (q: Places)
    requires Accounts(s, p, idSize) && Enabled(s, Acknowledge, idSize)
    ensures Accounts(Next(s, Acknowledge, idSize, maxLen), q, idSize) && Moves(p, Acknowledge, q)
  {
    Accounting.FlattenSnoc(p.done, p.held);
    q := Places(p.queued, [], p.done + [p.held]);
  }

  lemma {:induction false} StepAccounts(s: State, p: Places, step: Step, idSize: nat, maxLen: nat) returns (q: Places)
    requires Accounts(s, p, idSize) && CheckHolds(s, maxLen) && Enabled(s, step, idSize)
    requires maxLen % (idSize + 2) == 0
    ensures Accounts(Next(s, step, idSize, maxLen), q, idSize) && Moves(p, step, q)
  {
    match step {
      case Notify(n) => q := NotifyAccounts(s, p, n, idSize, maxLen);
      case Check => q := p;
      case Take => q := TakeAccounts(s, p, idSize, maxLen);
      case Fail => q := p;
      case Acknowledge => q := AcknowledgeAccounts(s, p, idSize, maxLen);
    }
  }

  lemma {:induction false} TakeAccounts(s: State, p: Places, idSize: nat, maxLen: nat) returns (q: Places)
    requires Accounts(s, p, idSize) && CheckHolds(s, maxLen) && Enabled(s, Take, idSize)
    requires maxLen % (idSize + 2) == 0
    ensures Accounts(Next(s, Take, idSize, maxLen), q, idSize) && Moves(p, Take, q)
  {
    var keep := TakeCut(s, p, idSize, maxLen);
    EncodeSplit(p.queued, idSize, keep);
    EncodeLength(p.held, idSize);
    NoFactor(|p.held|, idSize + 2);
    SplitBag(p.queued, keep);
    q := Places(p.queued[..keep], p.queued[keep..], p.done);
  }

  /** The queue, the batch and every acknowledged batch hold their records in the order in which they
      were notified. */
  ghost predicate InOrder(notified: seq<Notification>, p: Places) {
    && Within(p.queued, notified) && Within(p.held, notified)
    && forall i :: 0 <= i < |p.done| ==> Within(p.done[i], notified)
  }

  lemma {:induction false} NotifyInOrder(notified: seq<Notification>, p: Places, n: Notification)
    requires InOrder(notified, p)
    ensures InOrder(notified + [n], p.(queued := p.queued + [n]))
  {
    WithinMore(p.queued, notified, [n]);
    WithinLonger(p.held, notified, [n]);
    forall i | 0 <= i < |p.done| ensures Within(p.done[i], notified + [n]) {
      WithinLonger(p.done[i], notified, [n]);
    }
  }

  lemma {:induction false} StepInOrder(s: State, p: Places, step: Step, q: Places, idSize: nat, maxLen: nat)
    requires InOrder(s.notified, p) && Moves(p, step, q) && Enabled(s, step, idSize)
    ensures InOrder(Next(s, step, idSize, maxLen).notified, q)
  {
    match step {
      case Notify(n) => NotifyInOrder(s.notified, p, n);
      case Take =>
        var keep :| 0 <= keep <= |p.queued| && q == Places(p.queued[..keep], p.queued[keep..], p.done);
        WithinCut(p.queued, keep);
        WithinWithin(p.queued[..keep], p.queued, s.notified);
        WithinWithin(p.queued[keep..], p.queued, s.notified);
      case _ =>
    }
  }

  lemma {:induction false} SplitBag<T>(s: seq<T>, i: nat)
    requires i <= |s|
    ensures multiset(s) == multiset(s[..i]) + multiset(s[i..])
  {
    assert s == s[..i] + s[i..];
  }

  lemma {:induction false} AccountsRuns(s: State, p: Places, steps: seq<Step>, end: State, idSize: nat, maxLen: nat)
    returns (q: Places)
    requires Accounts(s, p, idSize) && CheckHolds(s, maxLen) && InOrder(s.notified, p)
    requires Runs(s, steps, end, idSize, maxLen) && maxLen % (idSize + 2) == 0
    ensures Accounts(end, q, idSize) && InOrder(end.notified, q)
    decreases |steps|
  {
    if steps == [] {
      q := p;
    } else {
      q := StepAccounts(s, p, steps[0], idSize, maxLen);
      StepInOrder(s, p, steps[0], q, idSize, maxLen);
      CheckKeeps(s, steps[0], idSize, maxLen);
      q := AccountsRuns(Next(s, steps[0], idSize, maxLen), q, steps[1..], end, idSize, maxLen);
    }
  }

  /** Conservation: when max_data_len is a multiple of the record size, in every interleaving the
      queue and every batch are whole records in the order in which they were notified, and every
      notification ever made is exactly once queued, held or acknowledged. */
  lemma {:induction false} NothingLost(steps: seq<Step>, s: State, idSize: nat, maxLen: nat) returns (p: Places)
    requires Runs(START, steps, s, idSize, maxLen) && maxLen % (idSize + 2) == 0
    ensures Accounts(s, p, idSize) && InOrder(s.notified, p)
  {
    p := AccountsRuns(START, Places([], [], []), steps, s, idSize, maxLen);
  }

  // ----- which records a batch takes -----

  /** The steps are just these notifications. */
  function NotifySteps(notes: seq<Notification>): seq<Step> {
    if notes == [] then [] else [Notify(notes[0])] + NotifySteps(notes[1..])
  }

  lemma {:induction false} QueueGrows(s: State, notes: seq<Notification>, end: State, idSize: nat, maxLen: nat)
    requires Runs(s, NotifySteps(notes), end, idSize, maxLen)
    ensures end == s.(queue := s.queue + Encode(notes), notified := s.notified + notes) && IdsOf(notes, idSize)
    decreases |notes|
  {
    if notes == [] {
      assert s.queue + "" == s.queue && s.notified + [] == s.notified;
    } else {
      var n, rest := notes[0], notes[1..];
      assert notes == [n] + rest && ([Notify(n)] + NotifySteps(rest))[1..] == NotifySteps(rest);
      QueueGrows(Next(s, Notify(n), idSize, maxLen), rest, end, idSize, maxLen);
      EncodeAppend([n], rest);
      EncodeOne(n);
      assert (s.queue + Record(n)) + Encode(rest) == s.queue + (Record(n) + Encode(rest));
      assert (s.notified + [n]) + rest == s.notified + ([n] + rest);
    }
  }

  /** Records are queued in the order of the notifications. */
  lemma {:induction false} QueueIsInOrder(notes: seq<Notification>, s: State, idSize: nat, maxLen: nat)
    requires Runs(START, NotifySteps(notes), s, idSize, maxLen)
    ensures s == State(Encode(notes), Idle, notes, []) && IdsOf(notes, idSize)
  {
    QueueGrows(START, notes, s, idSize, maxLen);
    assert "" + Encode(notes) == Encode(notes) && [] + notes == notes;
  }

  lemma {:induction false} CheckTake(q: string, notes: seq<Notification>, cut: nat, idSize: nat, maxLen: nat)
    requires q != "" && cut == if 0 < maxLen < |q| then |q| - maxLen else 0
    ensures Runs(State(q, Idle, notes, []), [Check, Take], State(q[..cut], Holding(q[cut..]), notes, []), idSize, maxLen)
  {
    var s := State(q, Idle, notes, []);
    assert [Check, Take][1..] == [Take] && [Take][1..] == [];
    assert Next(s, Check, idSize, maxLen) == s.(sender := Checked(if |q| > maxLen then maxLen else 0));
  }

  /** A batch takes the last k notifications when the limit has room for k records and there are
      more, otherwise all; the others stay queued. */
  lemma {:induction false} BatchIsLatest(notes: seq<Notification>, idSize: nat, k: nat)
    requires IdsOf(notes, idSize) && notes != []
    ensures var keep := if 0 < k < |notes| then |notes| - k else 0;
      Runs(State(Encode(notes), Idle, notes, []), [Check, Take],
           State(Encode(notes[..keep]), Holding(Encode(notes[keep..])), notes, []), idSize, k * (idSize + 2))
  {
    var r := idSize + 2;
    var keep := if 0 < k < |notes| then |notes| - k else 0;
    EncodeLength(notes, idSize);
    Products(|notes|, k, r);
    EncodeSplit(notes, idSize, keep);
    CheckTake(Encode(notes), notes, keep * r, idSize, k * r);
  }

  lemma {:induction false} Products(n: nat, k: nat, r: nat)
    requires n > 0 && r > 0
    ensures n * r > 0 && (n * r > k * r <==> n > k) && (k * r == 0 <==> k == 0)
    ensures k < n ==> n * r - k * r == (n - k) * r
  {
    if n > k { Scale(k + 1, n, r); } else { Scale(n, k, r); }
    if k > 0 { Scale(1, k, r); }
    Scale(1, n, r);
  }

  // ----- exactly when records stay whole -----

  ghost predicate WholeRecords(s: State, idSize: nat) {
    Parse(s.queue, idSize).Some? && Parse(Batch(s), idSize).Some?
  }

  ghost predicate AlwaysWhole(idSize: nat, maxLen: nat) {
    forall steps, s :: Runs(START, steps, s, idSize, maxLen) ==> WholeRecords(s, idSize)
  }

  lemma {:induction false} RunsAppend(s: State, a: seq<Step>, mid: State, b: seq<Step>, end: State,
                                      idSize: nat, maxLen: nat)
    requires Runs(s, a, mid, idSize, maxLen) && Runs(mid, b, end, idSize, maxLen)
    ensures Runs(s, a + b, end, idSize, maxLen)
    decreases |a|
  {
    if a == [] {
      assert a + b == b;
    } else {
      assert (a + b)[1..] == a[1..] + b;
      RunsAppend(Next(s, a[0], idSize, maxLen), a[1..], mid, b, end, idSize, maxLen);
    }
  }

  lemma {:induction false} RunsMore(s: State, steps: seq<Step>, mid: State, step: Step, idSize: nat, maxLen: nat)
    requires Runs(s, steps, mid, idSize, maxLen) && Enabled(mid, step, idSize)
    ensures Runs(s, steps + [step], Next(mid, step, idSize, maxLen), idSize, maxLen)
  {
    assert [step][1..] == [];
    RunsAppend(s, steps, mid, [step], Next(mid, step, idSize, maxLen), idSize, maxLen);
  }

  lemma {:induction false} NotifyMany(n: nat, idSize: nat, maxLen: nat) returns (steps: seq<Step>, s: State)
    ensures Runs(START, steps, s, idSize, maxLen) && s.sender.Idle? && |s.queue| == n * (idSize + 2)
  {
    if n == 0 {
      steps, s := [], START;
    } else {
      steps, s := NotifyMany(n - 1, idSize, maxLen);
      var note := Notification(seq(idSize, _ => '0'), true);
      RunsMore(START, steps, s, Notify(note), idSize, maxLen);
      steps, s := steps + [Notify(note)], Next(s, Notify(note), idSize, maxLen);
      assert n * (idSize + 2) == (n - 1) * (idSize + 2) + (idSize + 2);
    }
  }

  /** A limit that is no multiple of the record size cuts a record in two: one batch suffices. */
  lemma {:induction false} CutsARecord(idSize: nat, maxLen: nat) returns (steps: seq<Step>, s: State)
    requires maxLen % (idSize + 2) != 0
    ensures Runs(START, steps, s, idSize, maxLen) && !WholeRecords(s, idSize)
  {
    var q, e := Division(maxLen, idSize + 2);
    steps, s := NotifyMany(q + 1, idSize, maxLen);
    assert |s.queue| == q * (idSize + 2) + (idSize + 2);
    steps, s := CheckAndTake(steps, s, idSize, maxLen);
    NotParsed(s.queue, idSize);
  }

  lemma {:induction false} Division(m: nat, r: nat) returns (q: nat, e: nat)
    requires r > 0 && m % r != 0
    ensures m == q * r + e && 0 < e < r
  {
    q, e := m / r, m % r;
  }

  lemma {:induction false} CheckAndTake(before: seq<Step>, s0: State, idSize: nat, maxLen: nat)
    returns (steps: seq<Step>, s: State)
    requires Runs(START, before, s0, idSize, maxLen) && s0.sender.Idle? && |s0.queue| > maxLen > 0
    ensures Runs(START, steps, s, idSize, maxLen) && |s.queue| == |s0.queue| - maxLen && s.sender.Holding?
  {
    RunsMore(START, before, s0, Check, idSize, maxLen);
    steps, s := before + [Check], Next(s0, Check, idSize, maxLen);
    RunsMore(START, steps, s, Take, idSize, maxLen);
    steps, s := steps + [Take], Next(s, Take, idSize, maxLen);
  }

  lemma {:induction false} NotParsed(text: string, idSize: nat)
    requires 0 < |text| < idSize + 2
    ensures Parse(text, idSize).None?
  {
  }

  /** Queue and batch are whole records in every run if and only if max_data_len is a multiple of
      the record size (0, which never limits, included). */
  lemma {:induction false} WholeIffMultiple(idSize: nat, maxLen: nat)
    ensures AlwaysWhole(idSize, maxLen) <==> maxLen % (idSize + 2) == 0
  {
    if maxLen % (idSize + 2) == 0 {
      forall steps, s | Runs(START, steps, s, idSize, maxLen) ensures WholeRecords(s, idSize) {
        var p := NothingLost(steps, s, idSize, maxLen);
        ParseEncode(p.queued, idSize);
        ParseEncode(p.held, idSize);
      }
    } else {
      var steps, s := CutsARecord(idSize, maxLen);
    }
  }

  /** The shipped configuration: packets of 10 bytes, max_data_len 20000. */
  lemma {:induction false} ShippedLimitCutsRecords()
    ensures !AlwaysWhole(2 * 10, 20000)
  {
    WholeIffMultiple(20, 20000);
  }

  // ----- what the unlocked check does not promise -----

  /** A batch stays within a positive limit if and only if the check found the queue over the limit,
      or the queue is still within it when the batch is taken. */
  lemma {:induction false} WithinLimitIff(steps: seq<Step>, s: State, idSize: nat, maxLen: nat)
    requires Runs(START, steps, s, idSize, maxLen) && s.sender.Checked? && maxLen > 0
    ensures Enabled(s, Take, idSize)
    ensures |Next(s, Take, idSize, maxLen).sender.batch| <= maxLen <==> s.sender.sendLen > 0 || |s.queue| <= maxLen
  {
    CheckHoldsInRuns(START, steps, s, idSize, maxLen);
  }

  lemma {:induction false} NotifyOver(before: seq<Step>, s0: State, idSize: nat, maxLen: nat)
    returns (steps: seq<Step>, s: State)
    requires Runs(START, before, s0, idSize, maxLen)
    ensures Runs(START, steps, s, idSize, maxLen) && s.sender == s0.sender && |s.queue| > maxLen
    decreases maxLen - |s0.queue|
  {
    steps, s := before, s0;
    if |s0.queue| <= maxLen {
      var note := Notification(seq(idSize, _ => '0'), true);
      RunsMore(START, before, s0, Notify(note), idSize, maxLen);
      steps, s := NotifyOver(before + [Notify(note)], Next(s0, Notify(note), idSize, maxLen), idSize, maxLen);
    }
  }

  /** Full batches are taken and acknowledged until the queue is within the limit. */
  lemma {:induction false} DrainToLimit(before: seq<Step>, s0: State, idSize: nat, maxLen: nat)
    returns (steps: seq<Step>, s: State)
    requires Runs(START, before, s0, idSize, maxLen) && s0.sender.Idle? && s0.queue != "" && maxLen > 0
    ensures Runs(START, steps, s, idSize, maxLen) && s.sender.Idle? && 0 < |s.queue| <= maxLen
    decreases |s0.queue|
  {
    steps, s := before, s0;
    if |s0.queue| > maxLen {
      steps, s := CheckAndTake(before, s0, idSize, maxLen);
      RunsMore(START, steps, s, Acknowledge, idSize, maxLen);
      steps, s := DrainToLimit(steps + [Acknowledge], Next(s, Acknowledge, idSize, maxLen), idSize, maxLen);
    }
  }

  /** The limit is no bound on the batches: whatever it is, notifications between the check and the
      take can make one that exceeds it. */
  lemma {:induction false} BatchMayExceedLimit(idSize: nat, maxLen: nat) returns (steps: seq<Step>, s: State)
    requires maxLen > 0
    ensures Runs(START, steps, s, idSize, maxLen) && s.sender.Holding? && |s.sender.batch| > maxLen
  {
    steps, s := NotifyMany(1, idSize, maxLen);
    steps, s := DrainToLimit(steps, s, idSize, maxLen);
    RunsMore(START, steps, s, Check, idSize, maxLen);
    steps, s := NotifyOver(steps + [Check], Next(s, Check, idSize, maxLen), idSize, maxLen);
    RunsMore(START, steps, s, Take, idSize, maxLen);
    steps, s := steps + [Take], Next(s, Take, idSize, maxLen);
  }

  // ----- the code on the shared buffer -----

  /** What an undisturbed call sends: the held batch if there is one, else the end of the queue. */
  function Offered(s: State, maxLen: nat): string {
    if s.sender.Holding? then s.sender.batch
    else if 0 < maxLen < |s.queue| then s.queue[|s.queue| - maxLen..]
    else s.queue
  }

  class Sender {
    const queue: Buffer<char>
    const idSize: nat
    const maxLen: nat
    var sendBuf: Option<string>
    var sendLen: nat
    ghost var state: State

    ghost predicate Valid()
      reads this, queue, queue.data
    {
      && queue.Valid() && queue.Contents() == state.queue && CheckHolds(state, maxLen)
      && match sendBuf
         case Some(batch) => state.sender == Holding(batch)
         case None => state.sender == Idle || state.sender == Checked(sendLen)
    }

    constructor (queue: Buffer<char>, idSize: nat, maxLen: nat)
      requires queue.Valid() && queue.Contents() == []
      ensures Valid() && state == START && this.queue == queue && this.idSize == idSize && this.maxLen == maxLen
    {
      this.queue, this.idSize, this.maxLen := queue, idSize, maxLen;
      sendBuf, sendLen, state := None, 0, START;
    }

    /** notify, called by the timeout thread on the queue it shares with the sender. */
    method PutNotification(n: Notification)
      requires Valid() && |n.id| == idSize
      modifies this`state, queue, queue.data
      ensures Valid() && state == Next(old(state), Notify(n), idSize, maxLen)
      ensures queue.data == old(queue.data) || fresh(queue.data)
      ensures queue.Contents() == old(queue.Contents()) + n.id + [if n.action then '1' else '0', '.']
    {
      CheckKeeps(state, Notify(n), idSize, maxLen);
      Records.Notify(queue, n, idSize);
      state := Next(state, Notify(n), idSize, maxLen);
    }

    /** commit_notify_queue up to the lock: nothing to do for an empty queue. */
    method CheckLength() returns (proceed: bool)
      requires Valid() && state.sender.Idle?
      modifies this`sendLen, this`state
      ensures Valid() && state == Next(old(state), Check, idSize, maxLen)
      ensures proceed <==> state.sender.Checked?
    {
      state := Next(state, Check, idSize, maxLen);
      if queue.len == 0 { return false; }
      sendLen := if queue.len > maxLen then maxLen else 0;
      return true;
    }

    /** The locked section: the queue may have grown since the check. */
    method TakeBatch()
      requires Valid() && state.sender.Checked?
      modifies this`sendBuf, this`sendLen, this`state, queue`len
      ensures Valid() && state == Next(old(state), Take, idSize, maxLen)
      ensures sendBuf == Some(state.sender.batch) && sendLen == |state.sender.batch|
    {
      if sendLen == 0 {
        sendLen := queue.len;
      }
      ghost var before := queue.Contents();
      var batch := queue.TakeSuffix(sendLen);
      sendBuf := Some(batch);
      assert queue.Contents() == before[..|before| - sendLen] && batch == before[|before| - sendLen..];
      state := Next(state, Take, idSize, maxLen);
    }

    /** The send: the batch is freed only when the cloud answered with its ok response. */
    method Send(acknowledged: bool)
      requires Valid() && sendBuf.Some?
      modifies this`sendBuf, this`state
      ensures Valid() && state == Next(old(state), if acknowledged then Acknowledge else Fail, idSize, maxLen)
    {
      state := Next(state, if acknowledged then Acknowledge else Fail, idSize, maxLen);
      if acknowledged {
        sendBuf := None;
      }
    }

    /** One call of commit_notify_queue that nothing interrupts. */
    method CommitNotifyQueue(acknowledged: bool)
      requires Valid() && !state.sender.Checked?
      modifies this`sendBuf, this`sendLen, this`state, queue`len
      ensures Valid() && state.notified == old(state).notified
      ensures var batch := Offered(old(state), maxLen);
        && state.sender == (if batch == "" || acknowledged then Idle else Holding(batch))
        && state.acked == old(state).acked + (if batch != "" && acknowledged then [batch] else [])
        && (if old(state).sender.Holding? then state.queue == old(state).queue else state.queue + batch == old(state).queue)
    {
      if sendBuf.None? {
        var proceed := CheckLength();
        if !proceed { return; }
        TakeBatch();
      }
      Send(acknowledged);
    }
  }
}
