/** The channel switcher of the receiver (receive/nrf.c): reads the channel list from the settings,
    round after round, and tunes the radio through the listed channels, unless the sole channel is
    the one it already uses. */
module Channels {
  import Hex

  const CHANNEL_MAX: nat := 256

  predicate IsDigit(c: char) { '0' <= c <= '9' }

  function Digit(c: char): nat
    requires IsDigit(c)
  {
    c as int - '0' as int
  }

  ghost predicate AllDigits(t: string) { forall i :: 0 <= i < |t| ==> IsDigit(t[i]) }

  function Value(t: string): nat
    requires AllDigits(t)
  {
    Hex.ValueIn(t, 10)
  }

  // ----- what a channel list means -----

  /** s[i..j] is a maximal run of digits. */
  ghost predicate IsToken(s: string, i: nat, j: nat) {
    i < j <= |s| && AllDigits(s[i..j]) && (i > 0 ==> !IsDigit(s[i - 1])) && (j < |s| ==> !IsDigit(s[j]))
  }

  ghost predicate TokenOf(s: string, i: nat, j: nat, k: nat) {
    IsToken(s, i, j) && Value(s[i..j]) == k
  }

  /** k is listed: some token of the list has this value and it is a channel number. */
  ghost predicate Listed(s: string, k: nat) {
    k < 256 && exists i: nat, j: nat :: TokenOf(s, i, j, k)
  }

  // ----- what the parser collects -----

  /** The digits at the end of the text. */
  ghost function Trail(s: string): (t: string)
    ensures AllDigits(t)
  {
    if s == [] || !IsDigit(s[|s| - 1]) then [] else Trail(s[..|s| - 1]) + [s[|s| - 1]]
  }

  ghost function Close(t: string): seq<nat>
    requires AllDigits(t)
  {
    if t != [] && Value(t) < CHANNEL_MAX then [Value(t)] else []
  }

  /** The channels whose tokens are followed by a separator. */
  ghost function Closed(s: string): seq<nat> {
    if s == [] then []
    else if IsDigit(s[|s| - 1]) then Closed(s[..|s| - 1])
    else Closed(s[..|s| - 1]) + Close(Trail(s[..|s| - 1]))
  }

  /** All channels of the list, in order, repetitions included; the end of the text separates. */
  ghost function ChannelsOf(s: string): seq<nat> {
    Closed(s) + Close(Trail(s))
  }

  lemma {:induction false} TrailIsSuffix(s: string)
    ensures |Trail(s)| <= |s| && Trail(s) == s[|s| - |Trail(s)|..]
    ensures |Trail(s)| < |s| ==> !IsDigit(s[|s| - |Trail(s)| - 1])
  {
    if s != [] && IsDigit(s[|s| - 1]) {
      var init := s[..|s| - 1];
      TrailIsSuffix(init);
      assert Trail(s) == s[|s| - |Trail(s)|..];
    }
  }

  /** Tokens that end before the last character are those of the shorter text, when that character
      separates. */
  lemma {:induction false} TokenBefore(s: string, i: nat, j: nat)
    requires s != [] && j < |s|
    ensures IsToken(s, i, j) <==> IsToken(s[..|s| - 1], i, j) && !IsDigit(s[j])
    ensures i <= j ==> s[i..j] == s[..|s| - 1][i..j]
  {
    if i <= j {
      assert s[i..j] == s[..|s| - 1][i..j];
    }
  }

  /** A token that reaches the end of the text is its trail. */
  lemma {:induction false} LastToken(s: string, i: nat)
    ensures IsToken(s, i, |s|) <==> Trail(s) != [] && i == |s| - |Trail(s)|
  {
    TrailIsSuffix(s);
    var n := |s| - |Trail(s)|;
    assert forall x :: 0 <= x < |Trail(s)| ==> Trail(s)[x] == s[n + x];
    if i <= |s| {
      SuffixDigits(s, i);
      SuffixDigits(s, n);
    }
  }

  lemma {:induction false} SuffixDigits(s: string, i: nat)
    requires i <= |s|
    ensures AllDigits(s[i..|s|]) <==> forall x :: i <= x < |s| ==> IsDigit(s[x])
    ensures s[i..|s|] == s[i..]
  {
    assert forall x :: i <= x < |s| ==> s[i..|s|][x - i] == s[x];
  }

  lemma {:induction false} TrailToken(s: string, k: nat)
    ensures k in Close(Trail(s)) <==> k < CHANNEL_MAX && exists i :: TokenOf(s, i, |s|, k)
  {
    TrailIsSuffix(s);
    if k in Close(Trail(s)) {
      TokenOfTrail(s, |s| - |Trail(s)|, k);
    }
    if i: nat :| TokenOf(s, i, |s|, k) {
      TokenOfTrail(s, i, k);
    }
  }

  lemma {:induction false} TokenOfTrail(s: string, i: nat, k: nat)
    ensures TokenOf(s, i, |s|, k) <==> Trail(s) != [] && i == |s| - |Trail(s)| && Value(Trail(s)) == k
  {
    LastToken(s, i);
    if i == |s| - |Trail(s)| {
      TrailText(s);
    }
  }

  lemma {:induction false} TrailText(s: string)
    ensures |Trail(s)| <= |s| && s[|s| - |Trail(s)|..|s|] == Trail(s)
  {
    TrailIsSuffix(s);
  }

  lemma {:induction false} TokenKept(s: string, i: nat, j: nat, k: nat)
    requires s != [] && j < |s|
    ensures TokenOf(s, i, j, k) <==> TokenOf(s[..|s| - 1], i, j, k) && !IsDigit(s[j])
  {
    TokenBefore(s, i, j);
  }

  ghost predicate ClosedToken(s: string, k: nat) {
    exists i: nat, j: nat :: j < |s| && TokenOf(s, i, j, k)
  }

  /** One more character closes the trail if it separates, and no other token. */
  lemma {:induction false} ClosedTokenStep(s: string, k: nat)
    requires s != []
    ensures var init := s[..|s| - 1];
      ClosedToken(s, k) <==> ClosedToken(init, k) || (!IsDigit(s[|init|]) && exists i :: TokenOf(init, i, |init|, k))
  {
    var init := s[..|s| - 1];
    if ClosedToken(s, k) {
      var i: nat, j: nat :| j < |s| && TokenOf(s, i, j, k);
      TokenKept(s, i, j, k);
    }
    if ClosedToken(init, k) {
      var i: nat, j: nat :| j < |init| && TokenOf(init, i, j, k);
      TokenKept(s, i, j, k);
      assert init[j] == s[j];
    }
    if i :| TokenOf(init, i, |init|, k) {
      TokenKept(s, i, |init|, k);
    }
  }

  lemma {:induction false} ClosedMeaning(s: string, k: nat)
    ensures k in Closed(s) <==> k < CHANNEL_MAX && ClosedToken(s, k)
  {
    if s != [] {
      ClosedMeaning(s[..|s| - 1], k);
      TrailToken(s[..|s| - 1], k);
      ClosedTokenStep(s, k);
    }
  }

  /** The parser collects exactly the listed channels. */
  lemma {:induction false} ChannelsAreListed(s: string, k: nat)
    ensures k in ChannelsOf(s) <==> Listed(s, k)
  {
    ClosedMeaning(s, k);
    TrailToken(s, k);
    if ClosedToken(s, k) {
      var i: nat, j: nat :| j < |s| && TokenOf(s, i, j, k);
    }
  }

  /** The parsing loop of cron_channel_switch. */
  method ParseChannels(s: string) returns (bitmap: array<bool>, numChannels: nat, lastChannel: int)
    requires '\0' !in s
    ensures fresh(bitmap) && bitmap.Length == CHANNEL_MAX
    ensures forall k: nat :: k < CHANNEL_MAX ==> (bitmap[k] <==> Listed(s, k))
    ensures Collected(bitmap[..], numChannels, lastChannel, ChannelsOf(s))
  {
    bitmap := new bool[CHANNEL_MAX](_ => false);
    var curr: nat, isempty := 0, true;
    numChannels, lastChannel := 0, -1;
    var pos := 0;
    while true
      invariant pos <= |s|
      invariant (isempty <==> Trail(s[..pos]) == []) && curr == Value(Trail(s[..pos]))
      invariant Collected(bitmap[..], numChannels, lastChannel, Closed(s[..pos]))
      decreases |s| - pos
    {
      var c := if pos < |s| then s[pos] else '\0';
      ghost var t := Trail(s[..pos]);
      if pos < |s| {
        assert s[..pos + 1][..pos] == s[..pos];
      }
      if IsDigit(c) {
        isempty := false;
        assert (t + [c])[..|t|] == t;
        curr := curr * 10 + Digit(c);
      } else {
        if !isempty && curr < CHANNEL_MAX {
          bitmap[curr] := true;
          numChannels := numChannels + 1;
          lastChannel := curr;
        }
        curr, isempty := 0, true;
        if pos == |s| { break; }
      }
      pos := pos + 1;
    }
    assert s[..pos] == s;
    forall k: nat | k < CHANNEL_MAX ensures bitmap[k] <==> Listed(s, k) {
      ChannelsAreListed(s, k);
    }
  }

  lemma {:induction false} OneCharMore(s: string, c: char)
    ensures Trail(s + [c]) == if IsDigit(c) then Trail(s) + [c] else []
    ensures Closed(s + [c]) == if IsDigit(c) then Closed(s) else ChannelsOf(s)
  {
    assert (s + [c])[..|s|] == s;
  }

  lemma {:induction false} TrailBehind(a: string, sep: char, b: string)
    requires !IsDigit(sep)
    ensures Trail(a + ([sep] + b)) == Trail(b)
    ensures Closed(a + ([sep] + b)) == ChannelsOf(a) + Closed(b)
  {
    if b == [] {
      assert a + ([sep] + b) == a + [sep] && ChannelsOf(a) + [] == ChannelsOf(a);
      OneCharMore(a, sep);
    } else {
      var init, c := b[..|b| - 1], b[|b| - 1];
      assert a + ([sep] + b) == (a + ([sep] + init)) + [c] && b == init + [c];
      TrailBehind(a, sep, init);
      OneCharMore(a + ([sep] + init), c);
      OneCharMore(init, c);
      ThreeParts(ChannelsOf(a), Closed(init), Close(Trail(init)));
    }
  }

  lemma {:induction false} ThreeParts(x: seq<nat>, y: seq<nat>, z: seq<nat>)
    ensures (x + y) + z == x + (y + z)
  {
  }

  /** The channels of two lists behind each other, in order and with repetitions. */
  lemma {:induction false} ListsConcatenate(a: string, sep: char, b: string)
    requires !('0' <= sep <= '9')
    ensures ChannelsOf(a + ([sep] + b)) == ChannelsOf(a) + ChannelsOf(b)
  {
    TrailBehind(a, sep, b);
    ThreeParts(ChannelsOf(a), Closed(b), Close(Trail(b)));
  }

  /** One number is one channel, if it is below 256. */
  lemma {:induction false} ListOfOne(digits: string)
    requires digits != [] && AllDigits(digits)
    ensures ChannelsOf(digits) == if Value(digits) < 256 then [Value(digits)] else []
  {
    OnlyTrail(digits);
    assert [] + Close(digits) == Close(digits);
  }

  lemma {:induction false} OnlyTrail(digits: string)
    requires AllDigits(digits)
    ensures Trail(digits) == digits && Closed(digits) == []
  {
    if digits != [] { OnlyTrail(digits[..|digits| - 1]); }
  }

  ghost predicate Collected(bitmap: seq<bool>, numChannels: nat, lastChannel: int, channels: seq<nat>) {
    && |bitmap| == CHANNEL_MAX
    && (forall k :: 0 <= k < CHANNEL_MAX ==> (bitmap[k] <==> k in channels))
    && numChannels == |channels|
    && lastChannel == if channels == [] then -1 else channels[|channels| - 1]
  }

  // ----- tuning -----

  /** What the thread remembers of the previous round, and the channel the radio is tuned to; -1
      before it was first initialized. */
  datatype Radio = Radio(prevNum: nat, prevLast: int, tuned: int)

  const OFF := Radio(0, -1, -1)

  function Max(channels: seq<nat>): (m: nat)
    requires channels != []
    ensures m in channels && forall k :: k in channels ==> k <= m
  {
    if |channels| == 1 then channels[0]
    else
      var m := Max(channels[1..]);
      assert channels == [channels[0]] + channels[1..];
      if m < channels[0] then channels[0] else m
  }

  /** The branch that leaves the radio alone. */
  predicate Skips(r: Radio, channels: seq<nat>) {
    |channels| == 1 && r.prevNum == 1 && channels[0] == r.prevLast
  }

  /** One round: without channels nothing is tuned; sweeping through the listed channels in
      ascending order ends on the largest. */
  function Round(r: Radio, channels: seq<nat>): Radio {
    if channels == [] then Radio(0, -1, r.tuned)
    else Radio(|channels|, channels[|channels| - 1], if Skips(r, channels) then r.tuned else Max(channels))
  }

  function Rounds(r: Radio, lists: seq<seq<nat>>): Radio {
    if lists == [] then r else Round(Rounds(r, lists[..|lists| - 1]), lists[|lists| - 1])
  }

  /** The largest channel of the latest list that has one. */
  function LatestMax(lists: seq<seq<nat>>): int {
    if lists == [] then -1
    else if lists[|lists| - 1] == [] then LatestMax(lists[..|lists| - 1])
    else Max(lists[|lists| - 1])
  }

  /** Over every sequence of channel lists the radio is on the largest channel of the latest list
      that has one: skipping never leaves it on another. */
  lemma {:induction false} AlwaysOnLargest(lists: seq<seq<nat>>)
    ensures Rounds(OFF, lists).tuned == LatestMax(lists)
    ensures Rounds(OFF, lists).prevNum == 1 ==> Rounds(OFF, lists).tuned == Rounds(OFF, lists).prevLast
  {
    if lists != [] {
      AlwaysOnLargest(lists[..|lists| - 1]);
    }
  }

  /** The skip branch is taken only when the radio is already on the one channel configured. */
  lemma {:induction false} SkipsOnlyWhenTuned(lists: seq<seq<nat>>, next: seq<nat>)
    requires Skips(Rounds(OFF, lists), next)
    ensures next == [Max(next)] && Rounds(OFF, lists).tuned == Max(next)
  {
    AlwaysOnLargest(lists);
  }

  /** And exactly when the setting names one channel and is the one of the round before. */
  lemma {:induction false} SkipsIffRepeated(lists: seq<seq<nat>>, next: seq<nat>)
    ensures Skips(Rounds(OFF, lists), next) <==> |next| == 1 && lists != [] && lists[|lists| - 1] == next
  {
  }

  /** The listed channels below n in ascending order. */
  ghost function Sweep(channels: seq<nat>, n: nat): seq<nat> {
    if n == 0 then [] else Sweep(channels, n - 1) + if n - 1 in channels then [n - 1] else []
  }

  lemma {:induction false} SweepMeaning(channels: seq<nat>, n: nat)
    ensures forall k: nat :: k in Sweep(channels, n) <==> k < n && k in channels
    ensures forall i, j :: 0 <= i < j < |Sweep(channels, n)| ==> Sweep(channels, n)[i] < Sweep(channels, n)[j]
  {
    if n > 0 {
      SweepMeaning(channels, n - 1);
      var sweep := Sweep(channels, n - 1);
      forall i | 0 <= i < |sweep| ensures sweep[i] < n - 1 {
        assert sweep[i] in sweep;
      }
    }
  }

  lemma {:induction false} SweepEndsOnMax(channels: seq<nat>, n: nat)
    requires channels != [] && forall k :: k in channels ==> k < n
    ensures Sweep(channels, n) != [] && Sweep(channels, n)[|Sweep(channels, n)| - 1] == Max(channels)
  {
    SweepMeaning(channels, n);
    var sweep := Sweep(channels, n);
    assert Max(channels) in sweep;
    var i :| 0 <= i < |sweep| && sweep[i] == Max(channels);
    assert sweep[|sweep| - 1] in channels;
  }

  lemma {:induction false} NoSweep(n: nat)
    ensures Sweep([], n) == []
  {
    if n > 0 { NoSweep(n - 1); }
  }

  lemma {:induction false} ChannelsBelowMax(s: string)
    ensures forall k :: k in ChannelsOf(s) ==> k < CHANNEL_MAX
  {
    forall k | k in ChannelsOf(s) ensures k < CHANNEL_MAX {
      ChannelsAreListed(s, k);
    }
  }

  /** The tunings of successive rounds: a sweep for every list, but none for a sole channel that is
      the same as in the round before. */
  ghost function TuningsOf(lists: seq<seq<nat>>): seq<nat> {
    if lists == [] then [] else
      var init, last := lists[..|lists| - 1], lists[|lists| - 1];
      TuningsOf(init) + if |last| == 1 && init != [] && init[|init| - 1] == last then [] else Sweep(last, 256)
  }

  /** The same sole channel, round after round, is tuned once. */
  lemma {:induction false} RepeatedTunesOnce(c: nat, n: nat)
    requires c < 256
    ensures TuningsOf(seq(n + 1, _ => [c])) == [c]
  {
    var lists := seq(n + 1, _ => [c]);
    assert lists[..n] == seq(n, _ => [c]);
    if n == 0 {
      SweepOne(c, 256);
      assert [] + [c] == [c];
    } else {
      RepeatedTunesOnce(c, n - 1);
      assert [c] + [] == [c];
    }
  }

  lemma {:induction false} SweepOne(c: nat, n: nat)
    ensures Sweep([c], n) == if c < n then [c] else []
  {
    if n > 0 { SweepOne(c, n - 1); }
  }

  lemma {:induction false} RoundTunes(lists: seq<seq<nat>>, next: seq<nat>)
    ensures Rounds(OFF, lists + [next]) == Round(Rounds(OFF, lists), next)
    ensures TuningsOf(lists + [next])
         == TuningsOf(lists) + if Skips(Rounds(OFF, lists), next) then [] else Sweep(next, 256)
  {
    SkipsIffRepeated(lists, next);
    assert (lists + [next])[..|lists|] == lists;
  }

  class Switcher {
    var prevNumChannels: nat
    var prevLastChannel: int
    var currentChannel: nat
    /** Every initialization of the radio, in order. */
    ghost var tunings: seq<nat>

    ghost function State(): Radio
      reads this
    {
      Radio(prevNumChannels, prevLastChannel, if tunings == [] then -1 else tunings[|tunings| - 1])
    }

    ghost predicate Valid()
      reads this
    {
      currentChannel < CHANNEL_MAX && (tunings != [] ==> currentChannel == tunings[|tunings| - 1])
    }

    constructor ()
      ensures Valid() && State() == OFF && tunings == []
    {
      prevNumChannels, prevLastChannel, currentChannel, tunings := 0, -1, 0, [];
    }

    /** _switch_channels */
    method SwitchChannels(bitmap: array<bool>, ghost channels: seq<nat>)
      requires Valid() && bitmap.Length == CHANNEL_MAX
      requires forall k :: 0 <= k < CHANNEL_MAX ==> (bitmap[..][k] <==> k in channels)
      modifies this`currentChannel, this`tunings
      ensures Valid() && tunings == old(tunings) + Sweep(channels, bitmap.Length)
    {
      for channel := 0 to bitmap.Length
        invariant Valid() && tunings == old(tunings) + Sweep(channels, channel)
      {
        ghost var swept := Sweep(channels, channel);
        assert bitmap[..][channel] == bitmap[channel];
        if bitmap[channel] {
          currentChannel := channel;
          tunings := tunings + [channel];
          assert Sweep(channels, channel + 1) == swept + [channel];
        } else {
          assert Sweep(channels, channel + 1) == swept + [] == swept;
        }
      }
    }

    /** One round of cron_channel_switch on the current setting. */
    method SwitchRound(channels: string)
      requires Valid() && '\0' !in channels
      modifies this
      ensures Valid() && State() == Round(old(State()), ChannelsOf(channels))
      ensures Skips(old(State()), ChannelsOf(channels)) ==> tunings == old(tunings)
      ensures !Skips(old(State()), ChannelsOf(channels)) ==>
        tunings == old(tunings) + Sweep(ChannelsOf(channels), CHANNEL_MAX)
    {
      ChannelsBelowMax(channels);
      var bitmap, numChannels, lastChannel := ParseChannels(channels);
      Tune(bitmap, numChannels, lastChannel, ChannelsOf(channels));
    }

    /** The decision of a round and its bookkeeping, on the parsed list `cs`. */
    method Tune(bitmap: array<bool>, numChannels: nat, lastChannel: int, ghost cs: seq<nat>)
      requires Valid() && bitmap.Length == CHANNEL_MAX && Collected(bitmap[..], numChannels, lastChannel, cs)
      requires forall k :: k in cs ==> k < CHANNEL_MAX
      modifies this
      ensures Valid() && State() == Round(old(State()), cs)
      ensures Skips(old(State()), cs) ==> tunings == old(tunings)
      ensures !Skips(old(State()), cs) ==> tunings == old(tunings) + Sweep(cs, CHANNEL_MAX)
    {
      if numChannels == 0 {
        NoSweep(CHANNEL_MAX);
      } else if numChannels == 1 && prevNumChannels == 1 && lastChannel == prevLastChannel {
        // the radio is left alone
      } else {
        SweepEndsOnMax(cs, CHANNEL_MAX);
        SwitchChannels(bitmap, cs);
      }
      prevNumChannels := numChannels;
      prevLastChannel := lastChannel;
    }

    /** cron_channel_switch over the settings of successive rounds. */
    method CronChannelSwitch(settings: seq<string>)
      requires Valid() && State() == OFF && forall i :: 0 <= i < |settings| ==> '\0' !in settings[i]
      modifies this
      ensures Valid() && State().tuned == LatestMax(Lists(settings))
      ensures tunings == TuningsOf(Lists(settings))
    {
      for i := 0 to |settings|
        invariant Valid() && State() == Rounds(OFF, Lists(settings[..i]))
        invariant tunings == TuningsOf(Lists(settings[..i]))
      {
        RoundTunes(Lists(settings[..i]), ChannelsOf(settings[i]));
        SwitchRound(settings[i]);
        ListsSnoc(settings, i);
      }
      assert settings[..|settings|] == settings;
      AlwaysOnLargest(Lists(settings));
    }
  }

  ghost function ListsBy(settings: seq<string>, channelsOf: string -> seq<nat>): seq<seq<nat>> {
    seq(|settings|, i requires 0 <= i < |settings| => channelsOf(settings[i]))
  }

  ghost function Lists(settings: seq<string>): seq<seq<nat>> { ListsBy(settings, s => ChannelsOf(s)) }

  lemma {:induction false} ListsBySnoc(settings: seq<string>, i: nat, channelsOf: string -> seq<nat>)
    requires i < |settings|
    ensures ListsBy(settings[..i + 1], channelsOf) == ListsBy(settings[..i], channelsOf) + [channelsOf(settings[i])]
  {
  }

  lemma {:induction false} ListsSnoc(settings: seq<string>, i: nat)
    requires i < |settings|
    ensures Lists(settings[..i + 1]) == Lists(settings[..i]) + [ChannelsOf(settings[i])]
  {
    ListsBySnoc(settings, i, s => ChannelsOf(s));
  }
}
