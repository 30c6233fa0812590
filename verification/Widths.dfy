/** One setting read twice: nrf.RX_PLOAD_WIDTH gives the length of a packet as a hexadecimal number
    (receive/nrf.c, receive/receiver.c) and the length of a heartbeat as a decimal one
    (receive/sender.c). Which settings keep the packets apart at the merger. */
module Widths {
  import opened Hex
  import Receiver

  predicate IsSpace(c: char) { c == ' ' || '\t' <= c <= '\r' }

  function SkipSpaces(text: string): string {
    if text != [] && IsSpace(text[0]) then SkipSpaces(text[1..]) else text
  }

  /** The longest prefix of digits. */
  function Leading(text: string, base: nat): (t: string)
    ensures t <= text && forall i :: 0 <= i < |t| ==> DigitIn(t[i], base) < base
  {
    if text != [] && DigitIn(text[0], base) < base then [text[0]] + Leading(text[1..], base) else []
  }

  function Unprefixed(text: string, base: nat): string {
    if base == 16 && |text| > 2 && HasPrefix(text) && DigitIn(text[2], 16) < 16 then text[2..] else text
  }

  predicate Signed(text: string) { text != [] && (text[0] == '-' || text[0] == '+') }

  /** strtol: spaces, a sign, with base 16 a prefix, then digits. */
  function Strtol(text: string, base: nat): int {
    var t := SkipSpaces(text);
    var magnitude: int := Magnitude(Unsigned(t), base);
    if t != [] && t[0] == '-' then -magnitude else magnitude
  }

  function Unsigned(text: string): string { if Signed(text) then text[1..] else text }

  function Magnitude(text: string, base: nat): nat { ValueIn(Leading(Unprefixed(text, base), base), base) }

  /** 1 + RX_PLOAD_WIDTH, what add_to_queue is called with. */
  function DataSize(width: string): int { 1 + Strtol(width, 16) }

  /** packet_size in do_send. */
  function BeatSize(width: string): int { 1 + Strtol(width, 10) }

  // ----- the two readings compared -----

  lemma {:induction false} ValueGrows(a: string, b: string)
    ensures ValueIn(a, 16) <= ValueIn(a + b, 16)
  {
    if b == [] {
      assert a + b == a;
    } else {
      var init := b[..|b| - 1];
      assert (a + b)[..|a + b| - 1] == a + init;
      ValueGrows(a, init);
      assert ValueIn(a + b, 16) == ValueIn(a + init, 16) * 16 + DigitIn(b[|b| - 1], 16);
    }
  }

  /** Decimal digits read in base 16 give at least their decimal value, and the same only when all
      but the last are zero. */
  lemma {:induction false} BothBases(t: string)
    requires forall i :: 0 <= i < |t| ==> DigitIn(t[i], 10) < 10
    ensures ValueIn(t, 10) <= ValueIn(t, 16)
    ensures ValueIn(t, 10) == 0 <==> ValueIn(t, 16) == 0
    ensures ValueIn(t, 10) == ValueIn(t, 16) <==> ValueIn(t, 10) < 10
  {
    if t != [] {
      BothBases(t[..|t| - 1]);
      assert DigitIn(t[|t| - 1], 10) == DigitIn(t[|t| - 1], 16) < 10;
    }
  }

  lemma {:induction false} LeadingGrows(text: string) returns (rest: string)
    ensures Leading(text, 16) == Leading(text, 10) + rest
  {
    if text != [] && DigitIn(text[0], 10) < 10 {
      rest := LeadingGrows(text[1..]);
      assert [text[0]] + (Leading(text[1..], 10) + rest) == Leading(text, 10) + rest;
    } else {
      rest := Leading(text, 16);
      assert [] + rest == rest;
    }
  }

  lemma {:induction false} MagnitudesOrdered(text: string)
    ensures Magnitude(text, 10) <= Magnitude(text, 16)
  {
    var d := Leading(text, 10);
    if Unprefixed(text, 16) == text {
      var rest := LeadingGrows(text);
      ValueGrows(d, rest);
      BothBases(d);
    } else {
      assert Leading(text[1..], 10) == [] && d == ['0'] && d[..0] == [];
      assert ValueIn(d, 10) == 0;
    }
  }

  /** The decimal reading is never the larger one. */
  lemma {:induction false} ReadingsOrdered(text: string)
    ensures 0 <= Strtol(text, 16) ==> 0 <= Strtol(text, 10) <= Strtol(text, 16)
  {
    MagnitudesOrdered(Unsigned(SkipSpaces(text)));
  }

  lemma {:induction false} AllLeading(text: string, base: nat)
    requires base >= 10 && forall i :: 0 <= i < |text| ==> '0' <= text[i] <= '9'
    ensures Leading(text, base) == text
  {
    if text != [] { AllLeading(text[1..], base); }
  }

  lemma {:induction false} DigitsRead(text: string, base: nat)
    requires base >= 10 && forall i :: 0 <= i < |text| ==> '0' <= text[i] <= '9'
    ensures Strtol(text, base) == ValueIn(text, base)
  {
    AllLeading(text, base);
    assert SkipSpaces(text) == text == Unsigned(text);
    assert Unprefixed(text, base) == text;
  }

  /** Of a text of decimal digits the two readings agree exactly below ten. */
  lemma {:induction false} ReadingsAgreeIff(width: string)
    requires forall i :: 0 <= i < |width| ==> '0' <= width[i] <= '9'
    ensures 0 <= Strtol(width, 10) <= Strtol(width, 16)
    ensures Strtol(width, 10) == Strtol(width, 16) <==> Strtol(width, 10) < 10
  {
    DigitsRead(width, 10);
    DigitsRead(width, 16);
    BothBases(width);
  }

  lemma {:induction false} OnlyMultiple(b: int, m: int)
    requires 0 < b <= m && b % m == 0
    ensures b == m
  {
  }

  /** With any text for the width, packets stay apart at the merger if and only if the two readings
      agree and the merger reads that length. */
  lemma {:induction false} WidthIff(width: string, mergerSize: nat)
    requires DataSize(width) > 0 && BeatSize(width) > 0 && mergerSize > 0
    ensures Receiver.NeverSplices(DataSize(width), BeatSize(width), mergerSize)
       <==> mergerSize == DataSize(width) == BeatSize(width)
  {
    var data, beat := DataSize(width), BeatSize(width);
    ReadingsOrdered(width);
    Receiver.FramingIff(data, beat, mergerSize);
    if mergerSize == data && beat % mergerSize == 0 {
      OnlyMultiple(beat, mergerSize);
    }
  }

  /** A width written with decimal digits works if and only if it is below ten and the merger's
      packet size is one more. */
  lemma {:induction false} DecimalWidthIff(width: string, mergerSize: nat)
    requires mergerSize > 0 && forall i :: 0 <= i < |width| ==> '0' <= width[i] <= '9'
    ensures DataSize(width) > 0 && BeatSize(width) > 0
    ensures Receiver.NeverSplices(DataSize(width), BeatSize(width), mergerSize)
       <==> Strtol(width, 10) < 10 && mergerSize == 1 + Strtol(width, 10)
  {
    ReadingsAgreeIff(width);
    WidthIff(width, mergerSize);
  }

  /** A prefix counts for the hexadecimal reading only. */
  lemma {:induction false} Prefixed(digits: string)
    requires digits != [] && forall i :: 0 <= i < |digits| ==> DigitIn(digits[i], 16) < 16
    ensures Magnitude(['0', 'x'] + digits, 16) == ValueIn(digits, 16) && Magnitude(['0', 'x'] + digits, 10) == 0
  {
    var t := ['0', 'x'] + digits;
    assert t[2..] == digits && t[2] == digits[0];
    AllDigitsLead(digits);
    ZeroThenX(digits);
  }

  lemma {:induction false} ZeroThenX(digits: string)
    ensures Leading(['0', 'x'] + digits, 10) == ['0'] && ValueIn(['0'], 10) == 0
  {
    var t := ['0', 'x'] + digits;
    assert t[1..] == ['x'] + digits && Leading(t[1..], 10) == [];
    assert ['0'][..0] == [];
  }

  /** Leading spaces do not count, and a minus in front turns the sign. */
  lemma {:induction false} SpacesAndSign(spaces: string, digits: string, base: nat)
    requires base == 10 || base == 16
    requires forall i :: 0 <= i < |spaces| ==> spaces[i] in " \t\n\r"
    requires forall i :: 0 <= i < |digits| ==> '0' <= digits[i] <= '9'
    ensures Strtol(spaces + digits, base) == ValueIn(digits, base)
    ensures Strtol(spaces + (['-'] + digits), base) + ValueIn(digits, base) == 0
  {
    SpacesSkipped(spaces, digits);
    SpacesSkipped(spaces, ['-'] + digits);
    AllLeading(digits, base);
    assert (['-'] + digits)[1..] == digits;
    assert Unsigned(digits) == digits && Unprefixed(digits, base) == digits;
  }

  lemma {:induction false} SpacesSkipped(spaces: string, t: string)
    requires forall i :: 0 <= i < |spaces| ==> spaces[i] in " \t\n\r"
    requires t != [] ==> !IsSpace(t[0])
    ensures SkipSpaces(spaces + t) == t
  {
    if spaces == [] {
      assert spaces + t == t;
    } else {
      assert IsSpace(spaces[0]) && (spaces + t)[1..] == spaces[1..] + t;
      SpacesSkipped(spaces[1..], t);
    }
  }

  lemma {:induction false} AllDigitsLead(digits: string)
    requires forall i :: 0 <= i < |digits| ==> DigitIn(digits[i], 16) < 16
    ensures Leading(digits, 16) == digits
  {
    if digits != [] { AllDigitsLead(digits[1..]); }
  }

  lemma {:induction false} OneDigitValue(width: string)
    requires |width| == 1 && '0' <= width[0] <= '9'
    ensures Strtol(width, 10) == width[0] as int - '0' as int
  {
    DigitsRead(width, 10);
    assert width[..0] == [];
    assert ValueIn(width, 10) == ValueIn(width[..0], 10) * 10 + DigitIn(width[0], 10);
  }

  lemma {:induction false} OneDigit(width: string, mergerSize: nat)
    requires |width| == 1 && '0' <= width[0] <= '9' && mergerSize > 0
    ensures Receiver.NeverSplices(DataSize(width), BeatSize(width), mergerSize)
       <==> mergerSize == 1 + (width[0] as int - '0' as int)
  {
    OneDigitValue(width);
    DecimalWidthIff(width, mergerSize);
  }

  lemma {:induction false} TwoDigits(width: string, base: nat)
    requires base >= 10 && |width| == 2 && forall i :: 0 <= i < |width| ==> '0' <= width[i] <= '9'
    ensures Strtol(width, base) == (width[0] as int - '0' as int) * base + (width[1] as int - '0' as int)
  {
    DigitsRead(width, base);
    assert width[..1][..0] == [];
    assert ValueIn(width[..1], base) == DigitIn(width[0], base);
  }

  /** The two shipped pairs of settings keep the packets apart; the pair that config/mulandianzi
      asks for in words does not. */
  lemma {:induction false} ShippedWidths(nine: string, five: string)
    requires nine == "9" && five == "5"
    ensures Receiver.NeverSplices(DataSize(nine), BeatSize(nine), 10)
    ensures Receiver.NeverSplices(DataSize(five), BeatSize(five), 6)
    ensures !Receiver.NeverSplices(DataSize(five), BeatSize(five), 5)
  {
    OneDigit(nine, 10);
    OneDigit(five, 6);
    OneDigit(five, 5);
  }

  /** A width of two digits makes packets and heartbeats of different lengths, and no packet size of
      the merger keeps them apart: 10 makes packets of 17 bytes and heartbeats of 11. */
  lemma {:induction false} TwoDigitsSplice(width: string, mergerSize: nat)
    requires |width| == 2 && '1' <= width[0] <= '9' && '0' <= width[1] <= '9' && mergerSize > 0
    ensures DataSize(width) == 1 + 16 * (width[0] as int - '0' as int) + (width[1] as int - '0' as int)
    ensures BeatSize(width) == 1 + 10 * (width[0] as int - '0' as int) + (width[1] as int - '0' as int)
    ensures !Receiver.NeverSplices(DataSize(width), BeatSize(width), mergerSize)
  {
    TwoDigits(width, 16);
    TwoDigits(width, 10);
    DecimalWidthIff(width, mergerSize);
  }
}
