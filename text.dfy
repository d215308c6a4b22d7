/**
 * The pieces of Rust's `str` API and of the regex character classes that the
 * parsers of r-synced rely on, restricted to ASCII: `\d`, `\w`, `\s`,
 * `str::trim`, `str::lines`, `str::split(" ").last()`, `str::replace(c, "")`
 * and `str::parse::<u64>()` / `str::parse::<u8>()`.
 */
module Text {
  import opened Wrappers

  /** The character classes used by the source's regular expressions. */
  datatype CharClass =
    | Digit          // \d
    | DigitOrDot     // [\d.]
    | DigitOrComma   // [\d,]
    | DigitDotComma  // [\d.,]
    | Word           // \w
    | WordOrComma    // [\d,] and \w together
    | Space          // \s, and what str::trim removes

  predicate IsDigit(c: char) { '0' <= c <= '9' }

  predicate IsWord(c: char) {
    IsDigit(c) || 'a' <= c <= 'z' || 'A' <= c <= 'Z' || c == '_'
  }

  predicate IsSpace(c: char) {
    c == ' ' || c == '\t' || c == '\n' || c == '\r' || c == '\U{0B}' || c == '\U{0C}'
  }

  predicate InClass(c: char, cls: CharClass) {
    match cls
    case Digit => IsDigit(c)
    case DigitOrDot => IsDigit(c) || c == '.'
    case DigitOrComma => IsDigit(c) || c == ','
    case DigitDotComma => IsDigit(c) || c == '.' || c == ','
    case Word => IsWord(c)
    case WordOrComma => IsWord(c) || c == ','
    case Space => IsSpace(c)
  }

  predicate AllIn(s: string, cls: CharClass) {
    forall i | 0 <= i < |s| :: InClass(s[i], cls)
  }

  /** `+` in a regex: a non-empty run of the class. */
  predicate Run(s: string, cls: CharClass) {
    |s| > 0 && AllIn(s, cls)
  }

  /** The end of the longest run of `cls` that starts at `i`. */
  function Span(s: string, i: nat, cls: CharClass): (j: nat)
    requires i <= |s|
    ensures i <= j <= |s|
    decreases |s| - i
  {
    if i < |s| && InClass(s[i], cls) then Span(s, i + 1, cls) else i
  }

  /** Span stops at the first character outside the class. */
  lemma {:induction false} SpanShape(s: string, i: nat, cls: CharClass)
    requires i <= |s|
    ensures AllIn(s[i..Span(s, i, cls)], cls)
    ensures Span(s, i, cls) < |s| ==> !InClass(s[Span(s, i, cls)], cls)
    decreases |s| - i
  {
    if i < |s| && InClass(s[i], cls) {
      SpanShape(s, i + 1, cls);
    }
  }

  /** A run of `cls` that is followed by a character outside `cls` is the one Span finds. */
  lemma {:induction false} SpanIs(s: string, i: nat, j: nat, cls: CharClass)
    requires i <= j <= |s|
    requires AllIn(s[i..j], cls)
    requires j < |s| ==> !InClass(s[j], cls)
    ensures Span(s, i, cls) == j
    decreases j - i
  {
    if i < j {
      assert s[i] == s[i..j][0];
      var rest := s[i + 1..j];
      assert AllIn(rest, cls) by {
        forall m | 0 <= m < |rest| ensures InClass(rest[m], cls) {
          assert rest[m] == s[i..j][m + 1];
        }
      }
      SpanIs(s, i + 1, j, cls);
    }
  }

  // ---------------------------------------------------------------------------
  // str::trim

  predicate IsBlank(s: string) { AllIn(s, Space) }

  function TrimStart(s: string): string {
    if |s| > 0 && IsSpace(s[0]) then TrimStart(s[1..]) else s
  }

  function TrimEnd(s: string): string {
    if |s| > 0 && IsSpace(s[|s| - 1]) then TrimEnd(s[..|s| - 1]) else s
  }

  /** `TrimStart` drops the leading whitespace and nothing else. */
  lemma {:induction false} TrimStartShape(s: string)
    ensures var r := TrimStart(s);
      && |r| <= |s| && r == s[|s| - |r|..]
      && IsBlank(s[..|s| - |r|])
      && (|r| > 0 ==> !IsSpace(r[0]))
      && (|r| == 0 <==> IsBlank(s))
  {
    if |s| > 0 && IsSpace(s[0]) {
      TrimStartShape(s[1..]);
      var r := TrimStart(s[1..]);
      assert s[..|s| - |r|] == [s[0]] + s[1..][..|s| - 1 - |r|];
    }
  }

  /** `TrimEnd` drops the trailing whitespace and nothing else. */
  lemma {:induction false} TrimEndShape(s: string)
    ensures var r := TrimEnd(s);
      && |r| <= |s| && r == s[..|r|]
      && IsBlank(s[|r|..])
      && (|r| > 0 ==> !IsSpace(r[|r| - 1]))
      && (|r| == 0 <==> IsBlank(s))
  {
    if |s| > 0 && IsSpace(s[|s| - 1]) {
      TrimEndShape(s[..|s| - 1]);
      var r := TrimEnd(s[..|s| - 1]);
      assert s[|r|..] == s[..|s| - 1][|r|..] + [s[|s| - 1]];
    }
  }

  /** `str::trim`: the source text without leading and trailing whitespace. */
  function Trim(s: string): (r: string)
  {
    TrimEnd(TrimStart(s))
  }

  /** `r` stands at index `i` of `s`, with only whitespace before and after it. */
  predicate BlankAround(s: string, r: string, i: nat) {
    i + |r| <= |s| && r == s[i..i + |r|] && IsBlank(s[..i]) && IsBlank(s[i + |r|..])
  }

  /** What Trim returns is a slice of its input with only whitespace around it. */
  lemma TrimSlice(s: string)
    ensures exists i :: BlankAround(s, Trim(s), i)
    ensures var r := Trim(s); |r| > 0 ==> !IsSpace(r[0]) && !IsSpace(r[|r| - 1])
  {
    var t := TrimStart(s);
    var r := TrimEnd(t);
    TrimStartShape(s);
    TrimEndShape(t);
    var i := |s| - |t|;
    assert t == s[i..];
    assert r == s[i..i + |r|];
    assert s[i + |r|..] == t[|r|..];
    if |r| > 0 {
      assert r[0] == t[0];
    }
    assert r == Trim(s);
    assert BlankAround(s, r, i);
  }

  lemma {:induction false} TrimStartOfTrimmed(s: string)
    requires |s| > 0 ==> !IsSpace(s[0])
    ensures TrimStart(s) == s
  {
  }

  lemma {:induction false} TrimEndOfTrimmed(s: string)
    requires |s| > 0 ==> !IsSpace(s[|s| - 1])
    ensures TrimEnd(s) == s
  {
  }

  /** Trimming twice is trimming once. */
  lemma TrimIdempotent(s: string)
    ensures Trim(Trim(s)) == Trim(s)
  {
    var r := Trim(s);
    TrimSlice(s);
    TrimStartOfTrimmed(r);
    TrimEndOfTrimmed(r);
  }

  /** Whitespace skipped before trimming makes no difference. */
  lemma {:induction false} TrimStartSkipsBlank(s: string, j: nat)
    requires j <= |s| && IsBlank(s[..j])
    ensures TrimStart(s[j..]) == TrimStart(s)
    decreases j
  {
    if j > 0 {
      assert IsSpace(s[..j][0]);
      assert s[1..][..j - 1] == s[..j][1..];
      TrimStartSkipsBlank(s[1..], j - 1);
      assert s[1..][j - 1..] == s[j..];
    }
  }

  /** Trim returns the empty string exactly for the blank strings. */
  lemma TrimEmptyIffBlank(s: string)
    ensures Trim(s) == [] <==> IsBlank(s)
  {
    var t := TrimStart(s);
    TrimStartShape(s);
    TrimEndShape(t);
    if |t| > 0 {
      assert t[0] == t[0..][0];
    }
  }

  /** Dropping a trailing whitespace character drops at most the last character of `TrimStart`'s result. */
  lemma {:induction false} TrimStartDropLast(s: string)
    requires |s| > 0 && IsSpace(s[|s| - 1])
    ensures var t := TrimStart(s);
      TrimStart(s[..|s| - 1]) == if t == [] then [] else t[..|t| - 1]
    decreases |s|
  {
    if |s| > 1 && IsSpace(s[0]) {
      assert s[1..][..|s| - 2] == s[..|s| - 1][1..];
      TrimStartDropLast(s[1..]);
    }
  }

  /** A trailing whitespace character makes no difference to Trim. */
  lemma TrimDropsTrailingSpace(s: string)
    requires |s| > 0 && IsSpace(s[|s| - 1])
    ensures Trim(s[..|s| - 1]) == Trim(s)
  {
    TrimStartDropLast(s);
    var t := TrimStart(s);
    if t != [] {
      TrimStartShape(s);
      assert t[|t| - 1] == s[|s| - 1];
    }
  }

  // ---------------------------------------------------------------------------
  // str::lines, str::split(" ").last(), str::replace(c, ""), str::contains

  /** The first index at or after `from` that holds `c`, or |s| when there is none. */
  function Find(s: string, c: char, from: nat): (k: nat)
    requires from <= |s|
    ensures from <= k <= |s|
    ensures k < |s| ==> s[k] == c
    ensures forall j | from <= j < k :: s[j] != c
    decreases |s| - from
  {
    if from == |s| || s[from] == c then from else Find(s, c, from + 1)
  }

  /** The line a '\n' ends: the piece before it, less one '\r' at its end. */
  function StripCR(piece: string): (line: string)
    ensures line == piece || line + "\r" == piece
  {
    if |piece| > 0 && piece[|piece| - 1] == '\r' then piece[..|piece| - 1] else piece
  }

  /**
   * `str::lines`: the pieces between '\n' characters; a '\n' that ends the
   * text opens no further line, and a line that a '\n' ends loses one '\r'
   * in front of it.  LinesLast, LinesCons and LinesJoin say what the lines hold.
   */
  function Lines(s: string): (ls: seq<string>)
    ensures forall k | 0 <= k < |ls| :: '\n' !in ls[k]
    ensures |ls| == 0 <==> s == []
    decreases |s|
  {
    if s == [] then []
    else
      var k := Find(s, '\n', 0);
      if k == |s| then
        assert forall j | 0 <= j < |s| :: s[j] != '\n';
        [s]
      else
        var line := StripCR(s[..k]);
        assert forall j | 0 <= j < |line| :: line[j] == s[j];
        [line] + Lines(s[k + 1..])
  }

  /** Text without a '\n' is one line, kept whole (a final '\r' included). */
  lemma {:induction false} LinesLast(x: string)
    requires x != [] && '\n' !in x
    ensures Lines(x) == [x]
  {
    assert Find(x, '\n', 0) == |x|;
  }

  /** The first line is the text before the first '\n', less a '\r' just before it; the rest follow. */
  lemma {:induction false} LinesCons(x: string, r: string)
    requires '\n' !in x
    ensures Lines(x + "\n" + r) == [StripCR(x)] + Lines(r)
  {
    var s := x + "\n" + r;
    assert s[|x|] == '\n';
    assert Find(s, '\n', 0) == |x|;
    assert s[..|x|] == x;
    assert s[|x| + 1..] == r;
  }

  /** Each line followed by '\n'. */
  function JoinLines(ls: seq<string>): (s: string)
    ensures ls != [] ==> |s| > 0 && s[|s| - 1] == '\n'
  {
    if ls == [] then [] else ls[0] + "\n" + JoinLines(ls[1..])
  }

  /**
   * Without '\r', the lines give the text back: joined with '\n' after each,
   * they are the text with a '\n' added when it does not already end with one.
   */
  lemma {:induction false} LinesJoin(s: string)
    requires '\r' !in s
    ensures JoinLines(Lines(s)) == if s == [] || s[|s| - 1] == '\n' then s else s + "\n"
    decreases |s|
  {
    if s != [] {
      var k := Find(s, '\n', 0);
      if k == |s| {
        LinesLast(s);
        assert JoinLines([s]) == s + "\n" + JoinLines([]);
      } else {
        var x, r := s[..k], s[k + 1..];
        assert s == x + "\n" + r;
        LinesCons(x, r);
        assert StripCR(x) == x;
        LinesJoin(r);
        var ls := Lines(s);
        assert ls == [x] + Lines(r);
        assert ls[1..] == Lines(r);
        assert JoinLines(ls) == x + "\n" + JoinLines(Lines(r));
        if r == [] {
          assert s == x + "\n";
        } else {
          assert s[|s| - 1] == r[|r| - 1];
          if r[|r| - 1] != '\n' {
            assert x + "\n" + (r + "\n") == s + "\n";
          }
        }
      }
    }
  }

  /** The last index at or after `from` that holds `c`, if there is one. */
  function LastIndexOf(s: string, c: char, from: nat): (r: Option<nat>)
    requires from <= |s|
    ensures r.None? <==> forall k | from <= k < |s| :: s[k] != c
    ensures r.Some? ==> from <= r.value < |s| && s[r.value] == c
    ensures r.Some? ==> forall k | r.value < k < |s| :: s[k] != c
    decreases |s| - from
  {
    if from == |s| then None
    else
      match LastIndexOf(s, c, from + 1)
      case Some(k) => Some(k)
      case None => if s[from] == c then Some(from) else None
  }

  lemma LastIndexOfIs(s: string, c: char, from: nat, k: nat)
    requires from <= k < |s| && s[k] == c
    requires forall m | k < m < |s| :: s[m] != c
    ensures LastIndexOf(s, c, from) == Some(k)
  {
  }

  /** The text after the last ' ' of `s`: `s.split(" ").last()`. */
  function LastToken(s: string): (r: string)
    ensures |r| <= |s| && r == s[|s| - |r|..]
    ensures ' ' !in r
    ensures |r| < |s| ==> s[|s| - |r| - 1] == ' '
  {
    if |s| == 0 || s[|s| - 1] == ' ' then []
    else LastToken(s[..|s| - 1]) + [s[|s| - 1]]
  }

  /** `s.replace(c, "")` for a one-character pattern. */
  function RemoveChar(s: string, c: char): (r: string)
    ensures c !in r
    ensures |r| <= |s|
  {
    if |s| == 0 then []
    else if s[|s| - 1] == c then RemoveChar(s[..|s| - 1], c)
    else RemoveChar(s[..|s| - 1], c) + [s[|s| - 1]]
  }

  /** Removing a character works piece by piece: what remains of each part keeps its place. */
  lemma {:induction false} RemoveCharAppend(a: string, b: string, c: char)
    ensures RemoveChar(a + b, c) == RemoveChar(a, c) + RemoveChar(b, c)
    decreases |b|
  {
    if |b| == 0 {
      assert a + b == a;
    } else {
      assert (a + b)[..|a + b| - 1] == a + b[..|b| - 1];
      RemoveCharAppend(a, b[..|b| - 1], c);
    }
  }

  /** Text without the character comes back unchanged (RemoveCharAppend then fixes the order of what remains). */
  lemma {:induction false} RemoveCharKeeps(s: string, c: char)
    requires c !in s
    ensures RemoveChar(s, c) == s
  {
    if |s| > 0 {
      RemoveCharKeeps(s[..|s| - 1], c);
      assert s[..|s| - 1] + [s[|s| - 1]] == s;
    }
  }

  /** `haystack.contains(needle)`. */
  predicate Contains(haystack: string, needle: string) {
    exists i | 0 <= i <= |haystack| - |needle| :: OccursAt(haystack, needle, i)
  }

  predicate OccursAt(haystack: string, needle: string, i: nat) {
    i + |needle| <= |haystack| && haystack[i..i + |needle|] == needle
  }

  // ---------------------------------------------------------------------------
  // str::parse::<u64>() and str::parse::<u8>()

  const U8_MAX: nat := 0xFF
  const U64_MAX: nat := 0xFFFF_FFFF_FFFF_FFFF

  function DigitValue(c: char): nat
    requires IsDigit(c)
  {
    (c as int - '0' as int) as nat
  }

  /** The number a string of decimal digits denotes. */
  function DecimalValue(ds: string): nat
    requires AllIn(ds, Digit)
  {
    if |ds| == 0 then 0
    else 10 * DecimalValue(ds[..|ds| - 1]) + DigitValue(ds[|ds| - 1])
  }

  /**
   * Rust's `from_str` for an unsigned integer type whose largest value is
   * `max`: an optional leading '+', then at least one decimal digit, and a
   * value that fits.
   */
  function ParseUnsigned(s: string, max: nat): (r: Option<nat>)
    ensures r.Some? ==> r.value <= max
    ensures r.Some? <==> (|s| > 0 &&
      var ds := if s[0] == '+' then s[1..] else s;
      Run(ds, Digit) && DecimalValue(ds) <= max)
    ensures r.Some? ==> r.value == DecimalValue(if s[0] == '+' then s[1..] else s)
  {
    if |s| == 0 then None
    else
      var ds := if s[0] == '+' then s[1..] else s;
      if |ds| == 0 || !AllIn(ds, Digit) then None
      else
        var v := DecimalValue(ds);
        if v <= max then Some(v) else None
  }

  function ParseU64(s: string): (r: Option<nat>)
    ensures r.Some? ==> r.value <= U64_MAX
  {
    ParseUnsigned(s, U64_MAX)
  }

  function ParseU8(s: string): (r: Option<nat>)
    ensures r.Some? ==> r.value <= U8_MAX
  {
    ParseUnsigned(s, U8_MAX)
  }
}
