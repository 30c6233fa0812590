/** The configuration files (common/config.c): a goto parser that reads one character at a time
    into two fixed buffers, and a list in which later settings shadow earlier ones. */
module Config {
  import opened Wrappers

  datatype Entry = Entry(key: string, value: string)

  /** isgraph in the C locale */
  predicate IsGraph(c: char) { '!' <= c <= '~' }

  // ----- the language, as an automaton -----

  /** Where the text read so far leaves the parser. */
  datatype Mode = LineStart | InComment | InKey(key: string) | InValue(key: string, value: string)

  function Advance(m: Mode, c: char): (Mode, seq<Entry>) {
    match m
    case LineStart =>
      if c == ';' || c == '[' then (InComment, [])
      else if c == '\n' then (LineStart, [])
      else (if c == '=' then InValue("", "") else if IsGraph(c) then InKey([c]) else InKey(""), [])
    case InComment => (if c == '\n' then LineStart else InComment, [])
    case InKey(k) =>
      (if c == '=' then InValue(k, "") else if IsGraph(c) then InKey(k + [c]) else m, [])
    case InValue(k, v) =>
      if c == '\n' then (LineStart, [Entry(k, v)])
      else (if IsGraph(c) && c != '"' then InValue(k, v + [c]) else m, [])
  }

  /** Whether the file was accepted, and the settings made, in order. They are made even if the
      file is rejected later. */
  datatype Outcome = Outcome(ok: bool, entries: seq<Entry>)

  /** The end of the file, or a NUL byte, ends the text; only at the start of a line is that
      accepted. */
  function Run(m: Mode, text: string): Outcome
    decreases |text|
  {
    if text == [] || text[0] == '\0' then Outcome(m.LineStart?, [])
    else
      var (next, made) := Advance(m, text[0]);
      var rest := Run(next, text[1..]);
      Outcome(rest.ok, made + rest.entries)
  }

  /** The whole yields what was made first and then what the rest yields. */
  predicate Yields(whole: Outcome, made: seq<Entry>, rest: Outcome) {
    whole == Outcome(rest.ok, made + rest.entries)
  }

  const MAX_STRLEN := 100

  /** The mode's texts fit their buffers with the terminating NUL. */
  predicate FitsMode(m: Mode) {
    match m
    case InKey(k) => |k| < MAX_STRLEN
    case InValue(k, v) => |k| < MAX_STRLEN && |v| < MAX_STRLEN
    case _ => true
  }

  /** No key or value in the file outgrows its buffer. */
  predicate Fits(m: Mode, text: string)
    decreases |text|
  {
    FitsMode(m) && (text != [] && text[0] != '\0' ==> Fits(Advance(m, text[0]).0, text[1..]))
  }

  // ----- the parser -----

  /** A buffer holding a text, zero from its end on. */
  ghost predicate Holds(buf: array<char>, s: string)
    reads buf
  {
    && buf.Length == MAX_STRLEN && |s| < MAX_STRLEN && '\0' !in s
    && buf[..|s|] == s && forall i :: |s| <= i < buf.Length ==> buf[i] == '\0'
  }

  method StrLen(buf: array<char>, ghost s: string) returns (n: nat)
    requires Holds(buf, s)
    ensures n == |s|
  {
    n := 0;
    assert forall i :: 0 <= i < |s| ==> buf[i] == buf[..|s|][i] == s[i] && s[i] in s;
    while buf[n] != '\0'
      invariant n <= |s|
      decreases |s| - n
    {
      n := n + 1;
    }
  }

  /** buf[strlen(buf)] = c */
  method Push(buf: array<char>, c: char, ghost s: string)
    requires Holds(buf, s) && |s| + 1 < MAX_STRLEN && c != '\0'
    modifies buf
    ensures Holds(buf, s + [c])
  {
    var n := StrLen(buf, s);
    buf[n] := c;
    assert buf[..n + 1] == s + [c];
  }

  method Clear(buf: array<char>)
    requires buf.Length == MAX_STRLEN
    modifies buf
    ensures Holds(buf, "")
  {
    forall i | 0 <= i < buf.Length {
      buf[i] := '\0';
    }
  }

  method StrDup(buf: array<char>, ghost s: string) returns (copy: string)
    requires Holds(buf, s)
    ensures copy == s
  {
    var n := StrLen(buf, s);
    copy := buf[..n];
  }

  /** The settings list: newest first. */
  function Prepend(entries: seq<Entry>, conf: seq<Entry>): seq<Entry> {
    if entries == [] then conf else Prepend(entries[1..], [entries[0]] + conf)
  }

  lemma {:induction false} PrependAppend(a: seq<Entry>, b: seq<Entry>, conf: seq<Entry>)
    ensures Prepend(a + b, conf) == Prepend(b, Prepend(a, conf))
  {
    if a == [] {
      assert a + b == b;
    } else {
      assert (a + b)[1..] == a[1..] + b;
      PrependAppend(a[1..], b, [a[0]] + conf);
    }
  }

  class Configuration {
    var conf: seq<Entry>

    constructor ()
      ensures conf == []
    {
      conf := [];
    }

    /** get_config */
    method GetConfig(key: string) returns (value: string)
      ensures value == Setting(conf, key)
    {
      var cur := 0;
      while cur < |conf|
        invariant cur <= |conf| && Setting(conf, key) == Setting(conf[cur..], key)
      {
        if conf[cur].key == key { return conf[cur].value; }
        assert conf[cur..][1..] == conf[cur + 1..];
        cur := cur + 1;
      }
      return "";
    }

    method AddConfig(key: string, value: string)
      modifies this
      ensures conf == [Entry(key, value)] + old(conf)
    {
      conf := [Entry(key, value)] + conf;
    }

    /** parse_config. The three labels are the loop below (beginline), ReadKey and ReadValue; `pos`
        is the file position, behind the current character. */
    method ParseConfig(text: string) returns (ok: bool)
      requires Fits(LineStart, text)
      modifies this
      ensures ok == Run(LineStart, text).ok
      ensures conf == Prepend(Run(LineStart, text).entries, old(conf))
    {
      var key := new char[MAX_STRLEN];
      var value := new char[MAX_STRLEN];
      Clear(key);
      Clear(value);
      ghost var made := [];
      var pos: nat := 0;
      while !End(text, pos)
        invariant pos <= |text| && fresh(key) && fresh(value) && key != value && Holds(key, "") && Holds(value, "")
        invariant Fits(LineStart, text[pos..]) && Continues(text, made, LineStart, pos)
        invariant conf == Prepend(made, old(conf))
        decreases |text| - pos
      {
        var c, found := text[pos], true;
        PassesBlank(text, made, pos);
        if c == ';' || c == '[' {
          found, pos := SkipComment(text, pos + 1);
        } else if c == '\n' {
          pos := pos + 1;
        } else {
          ghost var start := pos;
          var k, v;
          found, pos, k, v := ReadSetting(text, pos, key, value);
          if found {
            AddConfig(k, v);
            PrependAppend(made, [Entry(k, v)], old(conf));
            MakesEntry(text, made, k, v, start, pos);
            made := made + [Entry(k, v)];
          }
        }
        if !found {
          assert made + [] == made;
          return false;
        }
      }
      assert made + [] == made;
      return true;
    }

    /** reload_configs, and load_config after its bookkeeping, on the text of the file. */
    method Load(text: string) returns (ok: bool)
      requires Fits(LineStart, text)
      modifies this
      ensures ok == Run(LineStart, text).ok
      ensures forall key :: Setting(conf, key) == match LastOf(Run(LineStart, text).entries, key)
                                                   case Some(value) => value
                                                   case None => Setting(old(conf), key)
    {
      ok := ParseConfig(text);
      forall key ensures Setting(conf, key) == match LastOf(Run(LineStart, text).entries, key)
                                               case Some(value) => value
                                               case None => Setting(old(conf), key) {
        SettingPrepend(Run(LineStart, text).entries, old(conf), key);
      }
    }
  }

  /** __next has nothing more to give. */
  predicate End(text: string, pos: nat) {
    pos >= |text| || text[pos] == '\0'
  }

  /** What the whole file yields is what was made so far and what the rest yields from mode m. */
  ghost predicate Continues(text: string, made: seq<Entry>, m: Mode, pos: nat)
    requires pos <= |text|
  {
    Yields(Run(LineStart, text), made, Run(m, text[pos..]))
  }

  /** Blank lines and the first character of a comment make nothing. */
  lemma {:induction false} PassesBlank(text: string, made: seq<Entry>, pos: nat)
    requires !End(text, pos) && Continues(text, made, LineStart, pos) && Fits(LineStart, text[pos..])
    ensures text[pos] == '\n' ==> Continues(text, made, LineStart, pos + 1) && Fits(LineStart, text[pos + 1..])
    ensures text[pos] in ";[" ==> Continues(text, made, InComment, pos + 1) && Fits(InComment, text[pos + 1..])
  {
    assert text[pos..][1..] == text[pos + 1..];
  }

  lemma {:induction false} MakesEntry(text: string, made: seq<Entry>, k: string, v: string, start: nat, pos: nat)
    requires start <= pos <= |text| && Continues(text, made, LineStart, start)
    requires Yields(Run(LineStart, text[start..]), [Entry(k, v)], Run(LineStart, text[pos..]))
    ensures Continues(text, made + [Entry(k, v)], LineStart, pos)
  {
    var rest := Run(LineStart, text[pos..]).entries;
    assert made + ([Entry(k, v)] + rest) == (made + [Entry(k, v)]) + rest;
  }

  /** One setting: from the first character of its line to the first of the next line. The buffers
      are empty again afterwards. */
  method ReadSetting(text: string, start: nat, key: array<char>, value: array<char>)
    returns (found: bool, pos: nat, newKey: string, newValue: string)
    requires !End(text, start) && text[start] !in ";[\n" && Fits(LineStart, text[start..])
    requires Holds(key, "") && Holds(value, "") && key != value
    modifies key, value
    ensures start <= pos <= |text|
    ensures found ==> start < pos && Holds(key, "") && Holds(value, "") && Fits(LineStart, text[pos..])
    ensures found ==> Yields(Run(LineStart, text[start..]), [Entry(newKey, newValue)], Run(LineStart, text[pos..]))
    ensures !found ==> Run(LineStart, text[start..]) == Outcome(false, [])
  {
    newKey, newValue := "", "";
    ghost var k, v;
    AsKey(text[start..]);
    found, pos, k := ReadKey(text, start, key);
    if !found { return; }
    found, pos, v := ReadValue(text, pos, k, value);
    if !found { return; }
    newKey := StrDup(key, k);
    newValue := StrDup(value, v);
    assert text[pos - 1..][1..] == text[pos..];
    Clear(key);
    Clear(value);
  }

  /** readkey: from the first character of a line to the character behind the equals sign. */
  method ReadKey(text: string, start: nat, key: array<char>) returns (found: bool, pos: nat, ghost k: string)
    requires start < |text| && text[start] != '\0' && Fits(InKey(""), text[start..]) && Holds(key, "")
    modifies key
    ensures start <= pos <= |text|
    ensures found ==> start < pos && !End(text, pos) && Holds(key, k) && Fits(InValue(k, ""), text[pos..])
                      && Run(InKey(""), text[start..]) == Run(InValue(k, ""), text[pos..])
    ensures !found ==> Run(InKey(""), text[start..]) == Outcome(false, [])
  {
    pos, k := start, "";
    while true
      invariant start <= pos < |text| && !End(text, pos) && Holds(key, k) && Fits(InKey(k), text[pos..])
      invariant Run(InKey(""), text[start..]) == Run(InKey(k), text[pos..])
      decreases |text| - pos
    {
      var c := text[pos];
      assert text[pos..][1..] == text[pos + 1..];
      pos := pos + 1;
      if IsGraph(c) {
        if c == '=' {
          return !End(text, pos), pos, k;
        }
        Push(key, c, k);
        k := k + [c];
      }
      if End(text, pos) { return false, pos, k; }
    }
  }

  /** readvalue: to the character behind the end of the line. */
  method ReadValue(text: string, start: nat, ghost k: string, value: array<char>)
    returns (found: bool, pos: nat, ghost v: string)
    requires !End(text, start) && Fits(InValue(k, ""), text[start..]) && Holds(value, "")
    modifies value
    ensures start <= pos <= |text|
    ensures found ==> start < pos && text[pos - 1] == '\n' && Holds(value, v) && Fits(LineStart, text[pos..])
                      && Run(InValue(k, ""), text[start..]) == Run(InValue(k, v), text[pos - 1..])
    ensures !found ==> Run(InValue(k, ""), text[start..]) == Outcome(false, [])
  {
    pos, v := start, "";
    while true
      invariant start <= pos < |text| && !End(text, pos) && Holds(value, v) && Fits(InValue(k, v), text[pos..])
      invariant Run(InValue(k, ""), text[start..]) == Run(InValue(k, v), text[pos..])
      decreases |text| - pos
    {
      var c := text[pos];
      assert text[pos..][1..] == text[pos + 1..];
      pos := pos + 1;
      if c == '\n' {
        return true, pos, v;
      } else if IsGraph(c) && c != '"' {
        Push(value, c, v);
        v := v + [c];
      }
      if End(text, pos) { return false, pos, v; }
    }
  }

  /** `while (next() != '\n');` from behind the first character of a comment. */
  method SkipComment(text: string, start: nat) returns (found: bool, pos: nat)
    requires start <= |text| && Fits(InComment, text[start..])
    ensures start <= pos <= |text|
    ensures found ==> pos > start && Fits(LineStart, text[pos..])
    ensures found ==> Run(InComment, text[start..]) == Run(LineStart, text[pos..])
    ensures !found ==> Run(InComment, text[start..]) == Outcome(false, [])
  {
    pos := start;
    while true
      invariant start <= pos <= |text| && Fits(InComment, text[pos..])
      invariant Run(InComment, text[start..]) == Run(InComment, text[pos..])
      decreases |text| - pos
    {
      if End(text, pos) { return false, pos; }
      var c := text[pos];
      assert text[pos..][1..] == text[pos + 1..];
      pos := pos + 1;
      if c == '\n' { return true, pos; }
    }
  }

  // ----- lookup and shadowing -----

  function Setting(conf: seq<Entry>, key: string): string {
    if conf == [] then "" else if conf[0].key == key then conf[0].value else Setting(conf[1..], key)
  }

  /** The last value given to a key. */
  function LastOf(entries: seq<Entry>, key: string): Option<string> {
    if entries == [] then None
    else match LastOf(entries[1..], key)
      case Some(v) => Some(v)
      case None => if entries[0].key == key then Some(entries[0].value) else None
  }

  lemma {:induction false} SettingPrepend(entries: seq<Entry>, conf: seq<Entry>, key: string)
    ensures Setting(Prepend(entries, conf), key)
         == match LastOf(entries, key) case Some(value) => value case None => Setting(conf, key)
  {
    if entries != [] {
      SettingPrepend(entries[1..], [entries[0]] + conf, key);
      assert ([entries[0]] + conf)[1..] == conf;
    }
  }

  // ----- files of lines -----

  /** A blank line, a comment or section line, or a setting with its two sides as written. */
  datatype Line = Blank | Comment(mark: char, text: string) | Assign(left: string, right: string)

  /** What the language allows in each: the left side must not look like a comment and ends at the
      first equals sign (it may even span lines); the right side ends with its line. */
  predicate LineOk(l: Line) {
    match l
    case Blank => true
    case Comment(mark, text) => mark in ";[" && '\n' !in text && '\0' !in text
    case Assign(left, right) =>
      && '=' !in left && '\0' !in left && (left != [] ==> left[0] !in ";[\n")
      && '\n' !in right && '\0' !in right
  }

  function TextOf(l: Line): string {
    match l
    case Blank => "\n"
    case Comment(mark, text) => [mark] + (text + "\n")
    case Assign(left, right) => left + ("=" + (right + "\n"))
  }

  function Render(lines: seq<Line>): string {
    if lines == [] then "" else TextOf(lines[0]) + Render(lines[1..])
  }

  /** The characters of a left side that count. */
  function Visible(s: string): string {
    if s == [] then "" else (if IsGraph(s[0]) then [s[0]] else "") + Visible(s[1..])
  }

  /** The characters of a right side that count: quotes do not. */
  function Unquoted(s: string): string {
    if s == [] then "" else (if IsGraph(s[0]) && s[0] != '"' then [s[0]] else "") + Unquoted(s[1..])
  }

  function EntriesOf(lines: seq<Line>): seq<Entry> {
    if lines == [] then []
    else EntryOf(lines[0]) + EntriesOf(lines[1..])
  }

  function EntryOf(l: Line): seq<Entry> {
    match l
    case Assign(left, right) => [Entry(Visible(left), Unquoted(right))]
    case _ => []
  }

  lemma {:induction false} LeftSide(k: string, left: string, rest: string)
    requires '=' !in left && '\0' !in left
    ensures Run(InKey(k), left + ("=" + rest)) == Run(InValue(k + Visible(left), ""), rest)
    decreases |left|
  {
    var text := left + ("=" + rest);
    if left == [] {
      assert text[0] == '=' && text[1..] == rest;
      assert k + Visible(left) == k;
    } else {
      assert text[0] == left[0] && text[1..] == left[1..] + ("=" + rest);
      var k' := if IsGraph(left[0]) then k + [left[0]] else k;
      LeftSide(k', left[1..], rest);
      assert k' + Visible(left[1..]) == k + Visible(left);
    }
  }

  lemma {:induction false} LeftFits(k: string, left: string, rest: string)
    requires '=' !in left && '\0' !in left
    ensures Fits(InKey(k), left + ("=" + rest)) <==> Fits(InValue(k + Visible(left), ""), rest)
    decreases |left|
  {
    var text := left + ("=" + rest);
    if left == [] {
      assert text[0] == '=' && text[1..] == rest;
      assert k + Visible(left) == k;
    } else {
      assert text[0] == left[0] && text[1..] == left[1..] + ("=" + rest);
      var k' := if IsGraph(left[0]) then k + [left[0]] else k;
      LeftFits(k', left[1..], rest);
      assert k' + Visible(left[1..]) == k + Visible(left);
    }
  }

  lemma {:induction false} RightSide(k: string, v: string, right: string, rest: string)
    requires '\n' !in right && '\0' !in right
    ensures Yields(Run(InValue(k, v), right + ("\n" + rest)), [Entry(k, v + Unquoted(right))], Run(LineStart, rest))
    ensures Fits(InValue(k, v), right + ("\n" + rest))
       <==> |k| < MAX_STRLEN && |v + Unquoted(right)| < MAX_STRLEN && Fits(LineStart, rest)
    decreases |right|
  {
    var text := right + ("\n" + rest);
    if right == [] {
      assert text[0] == '\n' && text[1..] == rest;
      assert v + Unquoted(right) == v;
    } else {
      assert text[0] == right[0] && text[1..] == right[1..] + ("\n" + rest);
      var v' := if IsGraph(right[0]) && right[0] != '"' then v + [right[0]] else v;
      RightSide(k, v', right[1..], rest);
      assert v' + Unquoted(right[1..]) == v + Unquoted(right);
    }
  }

  lemma {:induction false} CommentText(text: string, rest: string)
    requires '\n' !in text && '\0' !in text
    ensures Run(InComment, text + ("\n" + rest)) == Run(LineStart, rest)
    ensures Fits(InComment, text + ("\n" + rest)) <==> Fits(LineStart, rest)
  {
    var all := text + ("\n" + rest);
    if text == [] {
      assert all[0] == '\n' && all[1..] == rest;
    } else {
      assert all[0] == text[0] && all[1..] == text[1..] + ("\n" + rest);
      CommentText(text[1..], rest);
    }
  }

  predicate ShortEntry(l: Line) {
    l.Assign? ==> |Visible(l.left)| < 100 && |Unquoted(l.right)| < 100
  }

  lemma {:induction false} AssignLine(left: string, right: string, rest: string)
    requires LineOk(Assign(left, right))
    ensures Yields(Run(LineStart, left + ("=" + (right + ("\n" + rest)))),
                   [Entry(Visible(left), Unquoted(right))], Run(LineStart, rest))
    ensures Fits(LineStart, left + ("=" + (right + ("\n" + rest))))
       <==> ShortEntry(Assign(left, right)) && Fits(LineStart, rest)
  {
    var text := left + ("=" + (right + ("\n" + rest)));
    assert text[0] == if left == [] then '=' else left[0];
    AsKey(text);
    LeftSide("", left, right + ("\n" + rest));
    LeftFits("", left, right + ("\n" + rest));
    RightSide(Visible(left), "", right, rest);
    assert "" + Visible(left) == Visible(left) && "" + Unquoted(right) == Unquoted(right);
  }

  lemma {:induction false} AsKey(text: string)
    requires text != [] && text[0] != '\0' && text[0] !in ";[\n"
    ensures Run(LineStart, text) == Run(InKey(""), text)
    ensures Fits(LineStart, text) <==> Fits(InKey(""), text)
  {
    assert "" + [text[0]] == [text[0]];
  }

  lemma {:induction false} CommentLine(mark: char, body: string, rest: string)
    requires LineOk(Comment(mark, body))
    ensures Yields(Run(LineStart, [mark] + (body + ("\n" + rest))), [], Run(LineStart, rest))
    ensures Fits(LineStart, [mark] + (body + ("\n" + rest))) <==> Fits(LineStart, rest)
  {
    var text := [mark] + (body + ("\n" + rest));
    assert text[0] == mark && text[1..] == body + ("\n" + rest);
    CommentText(body, rest);
  }

  lemma {:induction false} CommentTextOf(mark: char, body: string, rest: string)
    ensures [mark] + (body + ("\n" + rest)) == TextOf(Comment(mark, body)) + rest
  {
  }

  /** One line is read as its own entry, whatever follows. */
  lemma {:induction false} OneLine(l: Line, rest: string)
    requires LineOk(l)
    ensures Yields(Run(LineStart, TextOf(l) + rest), EntryOf(l), Run(LineStart, rest))
    ensures Fits(LineStart, TextOf(l) + rest) <==> ShortEntry(l) && Fits(LineStart, rest)
  {
    var text := TextOf(l) + rest;
    match l {
      case Blank =>
        assert text[0] == '\n' && text[1..] == rest;
      case Comment(mark, body) =>
        CommentTextOf(mark, body, rest);
        CommentLine(mark, body, rest);
      case Assign(left, right) =>
        AssignText(left, right, rest);
        AssignLine(left, right, rest);
    }
  }

  /** Round trip: any file of complete lines is accepted and yields exactly its settings, in order;
      it stays within the two buffers if and only if every key and every value does. */
  lemma {:induction false} LinesParse(lines: seq<Line>)
    requires forall i :: 0 <= i < |lines| ==> LineOk(lines[i])
    ensures Run(LineStart, Render(lines)) == Outcome(true, EntriesOf(lines))
    ensures Fits(LineStart, Render(lines)) <==> forall i :: 0 <= i < |lines| ==> ShortEntry(lines[i])
  {
    if lines != [] {
      var l, rest := lines[0], lines[1..];
      assert lines == [l] + rest;
      LinesParse(rest);
      OneLine(l, Render(rest));
    }
  }

  // ----- and only those files are accepted -----

  lemma {:induction false} SplitAt(text: string, c: char) returns (i: nat)
    requires c in text
    ensures i < |text| && text[i] == c && c !in text[..i]
  {
    if text[0] == c {
      i := 0;
    } else {
      i := SplitAt(text[1..], c);
      i := i + 1;
      assert text[..i] == [text[0]] + text[1..][..i - 1];
    }
  }

  lemma {:induction false} CommentEnds(text: string)
    requires '\0' !in text && Run(InComment, text).ok
    ensures '\n' in text
  {
    if '\n' !in text && text != [] { CommentEnds(text[1..]); }
  }

  lemma {:induction false} KeyEnds(k: string, text: string)
    requires '\0' !in text && Run(InKey(k), text).ok
    ensures '=' in text
    decreases |text|
  {
    if text != [] && text[0] != '=' {
      KeyEnds(if IsGraph(text[0]) then k + [text[0]] else k, text[1..]);
    }
  }

  lemma {:induction false} ValueEnds(k: string, v: string, text: string)
    requires '\0' !in text && Run(InValue(k, v), text).ok
    ensures '\n' in text
    decreases |text|
  {
    if text != [] && text[0] != '\n' {
      ValueEnds(k, if IsGraph(text[0]) && text[0] != '"' then v + [text[0]] else v, text[1..]);
    }
  }

  lemma {:induction false} FirstComment(text: string) returns (l: Line, rest: string)
    requires '\0' !in text && text != [] && text[0] in ";[" && Run(LineStart, text).ok
    ensures LineOk(l) && text == TextOf(l) + rest
  {
    var body;
    CommentEnds(text[1..]);
    body, rest := Cut(text[1..], '\n');
    l := Comment(text[0], body);
    CommentTextOf(text[0], body, rest);
    assert text == [text[0]] + text[1..];
  }

  lemma {:induction false} FirstAssign(text: string) returns (l: Line, rest: string)
    requires '\0' !in text && text != [] && text[0] !in ";[\n" && Run(LineStart, text).ok
    ensures LineOk(l) && text == TextOf(l) + rest
  {
    AsKey(text);
    KeyEnds("", text);
    var left, more := Cut(text, '=');
    LeftSide("", left, more);
    ValueEnds("" + Visible(left), "", more);
    var right;
    right, rest := Cut(more, '\n');
    l := Assign(left, right);
    AssignText(left, right, rest);
    assert left != [] ==> left[0] == text[0];
  }

  lemma {:induction false} AssignText(left: string, right: string, rest: string)
    ensures left + ("=" + (right + ("\n" + rest))) == TextOf(Assign(left, right)) + rest
  {
  }

  /** The first line of an accepted, nonempty file. */
  lemma {:induction false} FirstLine(text: string) returns (l: Line, rest: string)
    requires '\0' !in text && text != [] && Run(LineStart, text).ok
    ensures LineOk(l) && text == TextOf(l) + rest
  {
    if text[0] == '\n' {
      l, rest := Blank, text[1..];
    } else if text[0] in ";[" {
      l, rest := FirstComment(text);
    } else {
      l, rest := FirstAssign(text);
    }
  }

  /** The text before the first c and the text behind it. */
  lemma {:induction false} Cut(text: string, c: char) returns (before: string, behind: string)
    requires c in text
    ensures text == before + ([c] + behind) && c !in before
    ensures forall d :: d !in text ==> d !in before && d !in behind
  {
    var i := SplitAt(text, c);
    before, behind := text[..i], text[i + 1..];
  }

  lemma {:induction false} AcceptedSplits(text: string) returns (lines: seq<Line>)
    requires '\0' !in text && Run(LineStart, text).ok
    ensures text == Render(lines) && forall i :: 0 <= i < |lines| ==> LineOk(lines[i])
    decreases |text|
  {
    if text == [] {
      lines := [];
    } else {
      var l, rest := FirstLine(text);
      OneLine(l, rest);
      assert forall c :: c in rest ==> c in text;
      var more := AcceptedSplits(rest);
      lines := [l] + more;
      assert lines[1..] == more;
    }
  }

  /** parse_config returns true exactly on files made of complete lines. A last line without its
      newline is the way to fail. */
  lemma {:induction false} AcceptedIffLines(text: string)
    requires '\0' !in text
    ensures Run(LineStart, text).ok
       <==> exists lines :: text == Render(lines) && forall i :: 0 <= i < |lines| ==> LineOk(lines[i])
  {
    if Run(LineStart, text).ok {
      var lines := AcceptedSplits(text);
    }
    forall lines | text == Render(lines) && forall i :: 0 <= i < |lines| ==> LineOk(lines[i])
      ensures Run(LineStart, text).ok
    {
      LinesParse(lines);
    }
  }

  /** Lines that begin with a semicolon or a bracket set nothing. */
  lemma {:induction false} CommentsSetNothing(body: string)
    requires '\n' !in body && '\0' !in body
    ensures Run(LineStart, [';'] + (body + "\n")) == Run(LineStart, ['['] + (body + "\n")) == Outcome(true, [])
  {
    assert body + ("\n" + "") == body + "\n";
    CommentLine(';', body, "");
    CommentLine('[', body, "");
  }

  /** A NUL byte ends the file. */
  lemma {:induction false} NulEnds(m: Mode, text: string, rest: string)
    ensures Run(m, text + (['\0'] + rest)) == Run(m, text)
    decreases |text|
  {
    var all := text + (['\0'] + rest);
    if text == [] {
      assert all[0] == '\0';
    } else if text[0] != '\0' {
      assert all[0] == text[0] && all[1..] == text[1..] + (['\0'] + rest);
      NulEnds(Advance(m, text[0]).0, text[1..], rest);
    }
  }

  lemma {:induction false} OpenValue(k: string, v: string, right: string)
    requires '\n' !in right && '\0' !in right
    ensures Run(InValue(k, v), right) == Outcome(false, [])
    decreases |right|
  {
    if right != [] {
      OpenValue(k, if IsGraph(right[0]) && right[0] != '"' then v + [right[0]] else v, right[1..]);
    }
  }

  /** A last setting without its newline is not made, the ones before it are. */
  lemma {:induction false} UnfinishedLine(lines: seq<Line>, left: string, right: string)
    requires forall i :: 0 <= i < |lines| ==> LineOk(lines[i])
    requires LineOk(Assign(left, right))
    ensures Run(LineStart, Render(lines) + (left + ("=" + right))) == Outcome(false, EntriesOf(lines))
    decreases |lines|
  {
    var last := left + ("=" + right);
    if lines == [] {
      assert "" + last == last && last[0] == if left == [] then '=' else left[0];
      AsKey(last);
      LeftSide("", left, right);
      OpenValue("" + Visible(left), "", right);
    } else {
      var l, rest := lines[0], lines[1..];
      assert lines == [l] + rest;
      UnfinishedLine(rest, left, right);
      OneLine(l, Render(rest) + last);
      assert (TextOf(l) + Render(rest)) + last == TextOf(l) + (Render(rest) + last);
    }
  }

  // ----- settings as they are written, and reloads -----

  predicate AllVisible(s: string) {
    forall i :: 0 <= i < |s| ==> '!' <= s[i] <= '~'
  }

  /** Spaces, tabs and all else that leaves no mark. */
  predicate NoneVisible(s: string) {
    forall i :: 0 <= i < |s| ==> !('!' <= s[i] <= '~')
  }

  lemma {:induction false} VisibleAppend(a: string, b: string)
    ensures Visible(a + b) == Visible(a) + Visible(b)
  {
    if a == [] {
      assert a + b == b;
    } else {
      assert (a + b)[1..] == a[1..] + b;
      VisibleAppend(a[1..], b);
    }
  }

  lemma {:induction false} UnquotedAppend(a: string, b: string)
    ensures Unquoted(a + b) == Unquoted(a) + Unquoted(b)
  {
    if a == [] {
      assert a + b == b;
    } else {
      assert (a + b)[1..] == a[1..] + b;
      UnquotedAppend(a[1..], b);
    }
  }

  lemma {:induction false} AllOrNone(s: string)
    ensures AllVisible(s) ==> Visible(s) == s && ('"' !in s ==> Unquoted(s) == s)
    ensures NoneVisible(s) ==> Visible(s) == "" && Unquoted(s) == ""
  {
    if s != [] { AllOrNone(s[1..]); }
  }

  lemma {:induction false} LeftText(key: string, gap: string)
    requires AllVisible(key) && NoneVisible(gap)
    ensures Visible(key + gap) == key
  {
    AllOrNone(key);
    AllOrNone(gap);
    VisibleAppend(key, gap);
  }

  lemma {:induction false} RightText(value: string, space: string)
    requires AllVisible(value) && '"' !in value && NoneVisible(space)
    ensures Unquoted(space + value) == value && Unquoted(space + (['"'] + (value + ['"']))) == value
  {
    AllOrNone(value);
    AllOrNone(space);
    UnquotedAppend(space, value);
    UnquotedAppend(space, ['"'] + (value + ['"']));
    UnquotedAppend(['"'], value + ['"']);
    UnquotedAppend(value, ['"']);
    assert ['"'][1..] == [] && Unquoted(['"']) == "";
  }

  lemma {:induction false} LeftIsOk(key: string, gap: string, right: string)
    requires AllVisible(key) && '=' !in key && NoneVisible(gap) && '\0' !in gap
    requires if key != [] then key[0] !in ";[" else gap != [] ==> gap[0] != '\n'
    requires '\n' !in right && '\0' !in right
    ensures LineOk(Assign(key + gap, right))
  {
    var left := key + gap;
    forall i | 0 <= i < |left| ensures left[i] != '=' && left[i] != '\0' {
      assert left[i] in key || left[i] in gap;
    }
  }

  /** `key = value` sets exactly that key to that value, whatever invisible characters stand around
      the equals sign, and whether or not the value is in quotes. */
  lemma {:induction false} SettingLine(key: string, value: string, gap: string, space: string)
    requires AllVisible(key) && '=' !in key && NoneVisible(gap) && '\0' !in gap
    requires if key != [] then key[0] !in ";[" else gap != [] ==> gap[0] != '\n'
    requires AllVisible(value) && '"' !in value && NoneVisible(space) && '\n' !in space && '\0' !in space
    ensures LineOk(Assign(key + gap, space + value))
    ensures EntryOf(Assign(key + gap, space + value)) == [Entry(key, value)]
    ensures EntryOf(Assign(key + gap, space + (['"'] + (value + ['"'])))) == [Entry(key, value)]
  {
    LeftText(key, gap);
    RightText(value, space);
    assert '\n' !in space + value && '\0' !in space + value;
    LeftIsOk(key, gap, space + value);
  }

  /** The settings after loading one file after the other. */
  function LoadAll(files: seq<seq<Line>>): seq<Entry> {
    if files == [] then [] else
      Prepend(Run(LineStart, Render(files[|files| - 1])).entries, LoadAll(files[..|files| - 1]))
  }

  /** The last value in the newest file that defines the key; empty if none does. */
  function Newest(files: seq<seq<Line>>, key: string): string {
    if files == [] then "" else
      match LastOf(EntriesOf(files[|files| - 1]), key)
      case Some(v) => v
      case None => Newest(files[..|files| - 1], key)
  }

  /** After any number of reloads get_config answers with the last value of the newest file that
      defines the key. */
  lemma {:induction false} NewestFileWins(files: seq<seq<Line>>, key: string)
    requires forall f, i :: 0 <= f < |files| && 0 <= i < |files[f]| ==> LineOk(files[f][i])
    ensures Setting(LoadAll(files), key) == Newest(files, key)
  {
    if files != [] {
      var init, last := files[..|files| - 1], files[|files| - 1];
      NewestFileWins(init, key);
      LinesParse(last);
      SettingPrepend(EntriesOf(last), LoadAll(init), key);
    }
  }
}
