module Wrappers {
  datatype Option<+T> = None | Some(value: T)
}

/** Hexadecimal text (common/common.c, receive/helper.c). */
module Hex {
  import opened Wrappers

  type byte = x: int | 0 <= x < 256

  /** tohexchar */
  function ToHexChar(n: int): char
    requires 0 <= n < 16
  {
    if n < 10 then ('0' as int + n) as char else ('a' as int + n - 10) as char
  }

  /** hex2int: -1 for a character that is no hexadecimal digit. */
  function Hex2Int(c: char): int {
    if 'a' <= c <= 'f' then c as int - 'a' as int + 10
    else if 'A' <= c <= 'F' then c as int - 'A' as int + 10
    else if '0' <= c <= '9' then c as int - '0' as int
    else -1
  }

  /** The value of a digit, at least `base` for anything else. */
  function DigitIn(c: char, base: nat): (d: nat) {
    if Hex2Int(c) < 0 then base else Hex2Int(c)
  }

  /** What a text of digits means in a base. */
  function ValueIn(digits: string, base: nat): nat {
    if digits == [] then 0 else ValueIn(digits[..|digits| - 1], base) * base + DigitIn(digits[|digits| - 1], base)
  }

  function HexByte(b: byte): string {
    [ToHexChar(b / 16), ToHexChar(b % 16)]
  }

  function HexOf(buf: seq<byte>): (s: string)
    ensures |s| == 2 * |buf|
  {
    if buf == [] then [] else HexOf(buf[..|buf| - 1]) + HexByte(buf[|buf| - 1])
  }

  /** sprint_buf, and the same loop over a packet in handle_packet. */
  method SprintBuf(buf: seq<byte>) returns (str: array<char>)
    ensures fresh(str) && str.Length == 2 * |buf| + 1
    ensures str[..2 * |buf|] == HexOf(buf) && str[2 * |buf|] == '\0'
  {
    str := new char[|buf| * 2 + 1];
    for i := 0 to |buf|
      invariant str[..2 * i] == HexOf(buf[..i])
    {
      assert buf[..i + 1][..i] == buf[..i];
      str[i * 2 + 0] := ToHexChar(buf[i] / 16);
      str[i * 2 + 1] := ToHexChar(buf[i] % 16);
      assert str[..2 * (i + 1)] == str[..2 * i] + HexByte(buf[i]);
    }
    assert buf[..|buf|] == buf;
    str[|buf| * 2] := '\0';
  }

  /** The byte two digits store: each digit is written with wrap-around into an unsigned char. */
  function ByteOf(high: char, low: char): byte {
    (Hex2Int(high) * 16 % 256 + Hex2Int(low)) % 256
  }

  function BytesOf(digits: string): (b: seq<byte>)
    requires |digits| % 2 == 0
    ensures |b| == |digits| / 2
  {
    if digits == [] then []
    else BytesOf(digits[..|digits| - 2]) + [ByteOf(digits[|digits| - 2], digits[|digits| - 1])]
  }

  /** What load_hex_config makes of a setting: nothing without the prefix or with an odd digit. */
  function HexConfig(s: string): Option<seq<byte>> {
    if !HasPrefix(s) || |s[2..]| % 2 != 0 then None else Some(BytesOf(s[2..]))
  }

  predicate HasPrefix(s: string) {
    |s| >= 2 && s[0] == '0' && (s[1] == 'x' || s[1] == 'X')
  }

  /** The character at `i` of a NUL-terminated string. */
  function At(s: string, i: nat): char {
    if i < |s| then s[i] else '\0'
  }

  lemma {:induction false} NextByte(digits: string, n: nat)
    requires 2 * n + 2 <= |digits|
    ensures BytesOf(digits[..2 * n + 2]) == BytesOf(digits[..2 * n]) + [ByteOf(digits[2 * n], digits[2 * n + 1])]
  {
    var d := digits[..2 * n + 2];
    assert d[..2 * n] == digits[..2 * n] && d[2 * n] == digits[2 * n] && d[2 * n + 1] == digits[2 * n + 1];
  }

  /** The two assignments to one byte of the buffer. */
  method StoreByte(buf: array<byte>, cur: nat, high: char, low: char)
    requires cur < buf.Length
    modifies buf
    ensures buf[..cur + 1] == old(buf[..cur]) + [ByteOf(high, low)]
  {
    buf[cur] := Hex2Int(high) * 16 % 256;
    buf[cur] := (buf[cur] + Hex2Int(low)) % 256;
    assert buf[..cur] == old(buf[..cur]);
  }

  /** load_hex_config */
  method LoadHexConfig(s: string) returns (len: nat, buf: array?<byte>)
    requires '\0' !in s
    ensures HexConfig(s).None? ==> len == 0 && buf == null
    ensures HexConfig(s).Some? ==> buf != null && fresh(buf) && len == buf.Length && buf[..] == HexConfig(s).value
  {
    if At(s, 0) != '0' || (At(s, 1) != 'x' && At(s, 1) != 'X') {
      return 0, null;
    }
    var str := 2;
    var origlen := |s| - 2;
    len := origlen / 2;
    if len * 2 != origlen {
      return 0, null;
    }
    buf := new byte[len];
    var cur := 0;
    ghost var digits := s[2..];
    while str < |s|
      invariant str == 2 + 2 * cur && cur <= len
      invariant buf[..cur] == BytesOf(digits[..2 * cur])
    {
      NextByte(digits, cur);
      assert digits[2 * cur] == s[str] && digits[2 * cur + 1] == s[str + 1];
      StoreByte(buf, cur, s[str], s[str + 1]);
      str, cur := str + 2, cur + 1;
    }
    assert digits[..2 * cur] == digits;
  }

  // ----- round trips -----

  lemma {:induction false} ByteRoundTrip(b: byte)
    ensures ByteOf(ToHexChar(b / 16), ToHexChar(b % 16)) == b
  {
  }

  lemma {:induction false} BytesOfHex(buf: seq<byte>)
    ensures BytesOf(HexOf(buf)) == buf
  {
    if buf != [] {
      var init, h := buf[..|buf| - 1], HexOf(buf);
      BytesOfHex(init);
      ByteRoundTrip(buf[|buf| - 1]);
      assert h[..|h| - 2] == HexOf(init);
    }
  }

  /** Loading a setting written by sprint_buf gives back exactly the bytes. */
  lemma {:induction false} ConfigRoundTrip(buf: seq<byte>)
    ensures HexConfig("0x" + HexOf(buf)) == Some(buf) == HexConfig("0X" + HexOf(buf))
  {
    BytesOfHex(buf);
    Prefixed('x', HexOf(buf));
    Prefixed('X', HexOf(buf));
    assert "0x" == ['0', 'x'] && "0X" == ['0', 'X'];
  }

  lemma {:induction false} Prefixed(x: char, digits: string)
    requires x == 'x' || x == 'X'
    ensures HasPrefix(['0', x] + digits) && (['0', x] + digits)[2..] == digits
  {
  }

  /** Different packets have different student IDs. */
  lemma {:induction false} HexInjective(a: seq<byte>, b: seq<byte>)
    ensures HexOf(a) == HexOf(b) <==> a == b
  {
    BytesOfHex(a);
    BytesOfHex(b);
  }

  /** A packet's ID, digit by digit. */
  lemma {:induction false} HexDigits(buf: seq<byte>, i: nat)
    requires i < |buf|
    ensures HexOf(buf)[2 * i] == "0123456789abcdef"[buf[i] / 16]
    ensures HexOf(buf)[2 * i + 1] == "0123456789abcdef"[buf[i] % 16]
  {
    var init := buf[..|buf| - 1];
    if i < |init| {
      HexDigits(init, i);
    } else {
      DigitChar(buf[i] / 16);
      DigitChar(buf[i] % 16);
    }
  }

  lemma {:induction false} DigitChar(n: nat)
    requires n < 16
    ensures ToHexChar(n) == "0123456789abcdef"[n]
  {
  }

  /** A setting is refused exactly when it does not begin with 0x or 0X or has an odd number of
      characters. */
  lemma {:induction false} RefusedIff(s: string)
    ensures HexConfig(s) == None
       <==> |s| < 2 || s[0] != '0' || (s[1] != 'x' && s[1] != 'X') || |s| % 2 == 1
    ensures HexConfig(s).Some? ==> 2 * |HexConfig(s).value| + 2 == |s|
  {
  }

  lemma {:induction false} StoredByte(h: int, l: int)
    requires -1 <= h < 16 && -1 <= l < 16
    ensures (h * 16 % 256 + l) % 256
         == if h < 0 then 240 + l else if h == 0 && l < 0 then 255 else 16 * h + l
  {
  }

  /** What bad digits store: -1, shifted and added with the wrap-around of a byte. */
  lemma {:induction false} BadDigits(hi: char, lo: char)
    ensures var (h, l) := (Hex2Int(hi), Hex2Int(lo));
      ByteOf(hi, lo) == if h == -1 then 240 + l else if h == 0 && l == -1 then 255 else 16 * h + l
  {
    StoredByte(Hex2Int(hi), Hex2Int(lo));
  }

  function Lower(c: char): char {
    if 'A' <= c <= 'Z' then (c as int + 32) as char else c
  }

  function ToLower(s: string): (r: string)
    ensures |r| == |s| && forall i :: 0 <= i < |s| ==> r[i] == Lower(s[i])
  {
    seq(|s|, i requires 0 <= i < |s| => Lower(s[i]))
  }

  predicate IsHex(s: string) {
    forall i :: 0 <= i < |s| ==> Hex2Int(s[i]) >= 0
  }

  lemma {:induction false} HexOfIsHex(buf: seq<byte>)
    ensures IsHex(HexOf(buf)) && forall c :: c in HexOf(buf) ==> '0' <= c <= '9' || 'a' <= c <= 'f'
  {
    if buf != [] { HexOfIsHex(buf[..|buf| - 1]); }
  }

  /** The loader does not look for bad digits: what it stores prints back as the (lower-case)
      setting exactly when every character after the prefix is a hexadecimal digit. */
  lemma {:induction false} PrintsBackIffHex(digits: string)
    requires |digits| % 2 == 0
    ensures HexOf(BytesOf(digits)) == ToLower(digits) <==> IsHex(digits)
  {
    if digits != [] {
      var n := |digits|;
      var init, hi, lo := digits[..n - 2], digits[n - 2], digits[n - 1];
      PrintsBackIffHex(init);
      HexOfSnoc(BytesOf(init), ByteOf(hi, lo));
      assert digits == init + [hi, lo];
      LastPair(init, hi, lo, HexOf(BytesOf(init)));
    }
  }

  lemma {:induction false} LastPair(init: string, hi: char, lo: char, printed: string)
    requires |printed| == |init|
    ensures printed + HexByte(ByteOf(hi, lo)) == ToLower(init + [hi, lo])
       <==> printed == ToLower(init) && Hex2Int(hi) >= 0 && Hex2Int(lo) >= 0
    ensures IsHex(init + [hi, lo]) <==> IsHex(init) && Hex2Int(hi) >= 0 && Hex2Int(lo) >= 0
  {
    LastByte(hi, lo);
    SplitPair(init, hi, lo);
    SamePairs(printed, HexByte(ByteOf(hi, lo)), ToLower(init), [Lower(hi), Lower(lo)]);
  }

  lemma {:induction false} SamePairs(a: string, x: string, b: string, y: string)
    requires |a| == |b|
    ensures a + x == b + y <==> a == b && x == y
  {
    if a + x == b + y {
      assert a == (a + x)[..|a|] && b == (b + y)[..|b|];
      assert x == (a + x)[|a|..] && y == (b + y)[|b|..];
    }
  }

  lemma {:induction false} HexOfSnoc(buf: seq<byte>, b: byte)
    ensures HexOf(buf + [b]) == HexOf(buf) + HexByte(b)
  {
    assert (buf + [b])[..|buf|] == buf;
  }

  lemma {:induction false} SplitPair(init: string, hi: char, lo: char)
    ensures ToLower(init + [hi, lo]) == ToLower(init) + [Lower(hi), Lower(lo)]
    ensures IsHex(init + [hi, lo]) <==> IsHex(init) && Hex2Int(hi) >= 0 && Hex2Int(lo) >= 0
  {
    var s := init + [hi, lo];
    assert forall i :: 0 <= i < |init| ==> init[i] == s[i];
    assert s[|init|] == hi && s[|init| + 1] == lo;
  }

  lemma {:induction false} LastByte(hi: char, lo: char)
    ensures HexByte(ByteOf(hi, lo)) == [Lower(hi), Lower(lo)] <==> Hex2Int(hi) >= 0 && Hex2Int(lo) >= 0
  {
    var b := ByteOf(hi, lo);
    if Hex2Int(hi) >= 0 && Hex2Int(lo) >= 0 {
      Nibbles(Hex2Int(hi), Hex2Int(lo));
      DigitPrintsBack(hi);
      DigitPrintsBack(lo);
    } else {
      IsDigitOf(b / 16);
      IsDigitOf(b % 16);
    }
  }

  lemma {:induction false} Nibbles(h: nat, l: nat)
    requires h < 16 && l < 16
    ensures var b := (h * 16 % 256 + l) % 256; b / 16 == h && b % 16 == l
  {
    assert h * 16 % 256 + l == 16 * h + l;
  }

  lemma {:induction false} DigitPrintsBack(c: char)
    requires Hex2Int(c) >= 0
    ensures ToHexChar(Hex2Int(c)) == Lower(c)
  {
  }

  lemma {:induction false} IsDigitOf(n: nat)
    requires n < 16
    ensures Hex2Int(ToHexChar(n)) == n
  {
  }
}

/** Percent-encoding of request bodies (common/http.c). */
module Url {
  import opened Wrappers
  import Hex

  predicate Literal(c: char) {
    'a' <= c <= 'z' || 'A' <= c <= 'Z' || '0' <= c <= '9' || c == '.' || c == '-' || c == '*' || c == '_'
  }

  /** Seven-bit text; an eighth bit would make the table index of the source negative. */
  predicate Ascii(s: string) {
    forall i :: 0 <= i < |s| ==> 0 < s[i] as int < 128
  }

  function Escape(c: char): string
    requires 0 < c as int < 128
  {
    if Literal(c) then [c] else ['%', Hex.ToHexChar(c as int / 16), Hex.ToHexChar(c as int % 16)]
  }

  function UrlOf(msg: string): (r: string)
    requires Ascii(msg)
    ensures |r| <= 3 * |msg|
  {
    if msg == [] then [] else UrlOf(msg[..|msg| - 1]) + Escape(msg[|msg| - 1])
  }

  const HEX_CHARS := "0123456789abcdef"

  /** urlencode: writes through a moving pointer into 3n + 1 allocated characters. */
  method UrlEncode(msg: string) returns (buf: array<char>)
    requires Ascii(msg)
    ensures fresh(buf) && buf.Length == 3 * |msg| + 1
    ensures buf[..|UrlOf(msg)|] == UrlOf(msg) && buf[|UrlOf(msg)|] == '\0'
  {
    buf := new char[|msg| * 3 + 1];
    var cur: nat := 0;
    for i := 0 to |msg|
      invariant cur <= 3 * i && buf[..cur] == UrlOf(msg[..i])
    {
      assert msg[..i + 1][..i] == msg[..i];
      cur := Put(buf, cur, msg[i]);
    }
    assert msg[..|msg|] == msg;
    buf[cur] := '\0';
  }

  /** The loop body of urlencode for one character. */
  method Put(buf: array<char>, cur: nat, c: char) returns (next: nat)
    requires 0 < c as int < 128 && cur + 3 <= buf.Length
    modifies buf
    ensures next == cur + |Escape(c)| && buf[..next] == old(buf[..cur]) + Escape(c)
  {
    if Literal(c) {
      buf[cur] := c;
      next := cur + 1;
    } else {
      buf[cur] := '%';
      buf[cur + 1] := HEX_CHARS[c as int / 16];
      buf[cur + 2] := HEX_CHARS[c as int % 16];
      next := cur + 3;
    }
  }

  /** Percent-decoding, section 2.1 of RFC 3986: `%` and two hexadecimal digits stand for one octet. */
  function PercentDecode(s: string): Option<string> {
    if s == [] then Some([])
    else if s[0] != '%' then
      match PercentDecode(s[1..])
      case None => None
      case Some(rest) => Some([s[0]] + rest)
    else if |s| < 3 || Hex.Hex2Int(s[1]) < 0 || Hex.Hex2Int(s[2]) < 0 then None
    else
      match PercentDecode(s[3..])
      case None => None
      case Some(rest) => Some([(16 * Hex.Hex2Int(s[1]) + Hex.Hex2Int(s[2])) as char] + rest)
  }

  lemma {:induction false} UrlAppend(a: string, b: string)
    requires Ascii(a) && Ascii(b)
    ensures Ascii(a + b) && UrlOf(a + b) == UrlOf(a) + UrlOf(b)
  {
    if b == [] {
      assert a + b == a;
    } else {
      assert (a + b)[..|a + b| - 1] == a + b[..|b| - 1];
      UrlAppend(a, b[..|b| - 1]);
    }
  }

  lemma {:induction false} EscapeDecodes(c: char, rest: string)
    requires 0 < c as int < 128
    ensures PercentDecode(Escape(c) + rest)
         == match PercentDecode(rest) case None => None case Some(r) => Some([c] + r)
  {
    var s := Escape(c) + rest;
    if Literal(c) {
      assert s[1..] == rest;
    } else {
      assert s[3..] == rest;
    }
  }

  /** Percent-decoding recovers every seven-bit text. */
  lemma {:induction false} UrlRoundTrip(msg: string)
    requires Ascii(msg)
    ensures PercentDecode(UrlOf(msg)) == Some(msg)
  {
    if msg != [] {
      var c, rest := msg[0], msg[1..];
      assert msg == [c] + rest && [c][..0] == [];
      UrlAppend([c], rest);
      UrlRoundTrip(rest);
      EscapeDecodes(c, UrlOf(rest));
      assert UrlOf([c]) == Escape(c);
    }
  }

  /** Letters, digits, and . - * _ stand for themselves; every other character, the space too,
      becomes a percent sign and two lower-case hexadecimal digits. */
  lemma {:induction false} EscapeExact(c: char)
    requires 0 < c as int < 128
    ensures UrlOf([c]) ==
      if 'a' <= c <= 'z' || 'A' <= c <= 'Z' || '0' <= c <= '9' || c in ".-*_" then [c]
      else ['%', "0123456789abcdef"[c as int / 16], "0123456789abcdef"[c as int % 16]]
  {
    Hex.DigitChar(c as int / 16);
    Hex.DigitChar(c as int % 16);
    assert [c][..0] == [] && [] + Escape(c) == Escape(c);
  }

  /** Text is sent unchanged exactly when every character may stand for itself. */
  lemma {:induction false} UnchangedIffLiteral(msg: string)
    requires Ascii(msg)
    ensures |UrlOf(msg)| >= |msg|
    ensures UrlOf(msg) == msg <==> forall i :: 0 <= i < |msg| ==> Literal(msg[i])
  {
    if msg != [] {
      var init, c := msg[..|msg| - 1], msg[|msg| - 1];
      UnchangedIffLiteral(init);
      assert msg == init + [c];
      assert forall i :: 0 <= i < |init| ==> init[i] == msg[i];
      if UrlOf(msg) == msg {
        assert |UrlOf(init)| == |init| && |Escape(c)| == 1;
        assert UrlOf(init) == UrlOf(msg)[..|init|];
      }
    }
  }
}
