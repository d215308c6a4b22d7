/**
 * `parse_rsync_progress` of src/utils.rs: one line of `rsync --progress`
 * output, such as "  1.234.567  45%  1,23MB/s    0:00:12", becomes an
 * `RsyncProgress` record, or nothing.
 *
 * The source anchors the regular expression
 *   ^([\d.]+)\s+(\d+)%\s+([\d,]+\w+/\w+)\s+(\d{1,2}:\d{2}:\d{2})
 * at the start of the trimmed line.  Here the pattern is a `Layout`: the line
 * cut into its pieces, with `WellFormed` saying what each piece must be.
 * `MatchProgress` is the hand-written matcher; its postcondition and
 * `MatchProgressComplete` together say that it finds a layout exactly when
 * the line has one, and that the layout is unique.
 */
module Progress {
  import opened Wrappers
  import opened Text

  /** The record the source builds (`RsyncProgress`). */
  datatype RsyncProgress = RsyncProgress(
    bytesTransferred: nat,   // u64
    percentage: nat,         // u8
    speed: string,
    estimatedTime: string)

  /** A progress line cut into the pieces of the pattern; `rest` is what follows the time. */
  datatype Layout = Layout(
    bytes: string, gap1: string, percent: string, gap2: string,
    speed: string, gap3: string, time: string, rest: string)

  function Spelled(l: Layout): string {
    l.bytes + l.gap1 + l.percent + "%" + l.gap2 + l.speed + l.gap3 + l.time + l.rest
  }

  /** `[\d,]+\w+`: a number, possibly with ',' in it, then a unit. */
  predicate NumberUnit(a: string) {
    exists k | 0 < k < |a| :: AllIn(a[..k], DigitOrComma) && AllIn(a[k..], Word)
  }

  /** `[\d,]+\w+/\w+`, e.g. "1,23MB/s". */
  predicate SpeedToken(sp: string) {
    exists j | 0 < j < |sp| - 1 :: SlashAt(sp, j)
  }

  /** The '/' of a speed token, the one its pattern splits at. */
  predicate SlashAt(sp: string, j: nat) {
    0 < j < |sp| - 1 && sp[j] == '/' && NumberUnit(sp[..j]) && AllIn(sp[j + 1..], Word)
  }

  /** `\d{1,2}:\d{2}:\d{2}`, e.g. "0:00:12" or "12:34:56". */
  predicate TimeToken(tm: string) {
    (|tm| == 7 || |tm| == 8) &&
    var h := |tm| - 6;
    AllIn(tm[..h], Digit) && tm[h] == ':' && IsDigit(tm[h + 1]) && IsDigit(tm[h + 2])
    && tm[h + 3] == ':' && IsDigit(tm[h + 4]) && IsDigit(tm[h + 5])
  }

  predicate WellFormed(l: Layout) {
    && Run(l.bytes, DigitOrDot)
    && Run(l.gap1, Space)
    && Run(l.percent, Digit)
    && Run(l.gap2, Space)
    && SpeedToken(l.speed)
    && Run(l.gap3, Space)
    && TimeToken(l.time)
  }

  lemma NumberUnitChars(a: string)
    requires NumberUnit(a)
    ensures Run(a, WordOrComma)
  {
    var k :| 0 < k < |a| && AllIn(a[..k], DigitOrComma) && AllIn(a[k..], Word);
    forall i | 0 <= i < |a| ensures InClass(a[i], WordOrComma) {
      if i < k {
        assert a[i] == a[..k][i];
      } else {
        assert a[i] == a[k..][i - k];
      }
    }
  }

  // The matcher works field by field; each field takes the whitespace run
  // after it too.  A field function returns where the field ends and where
  // the whitespace after it ends.

  /** `([\d.]+)\s+` at the start of `t`. */
  function BytesField(t: string): (r: Option<(nat, nat)>)
    ensures r.Some? ==> 0 < r.value.0 < r.value.1 <= |t|
  {
    var e1 := Span(t, 0, DigitOrDot);
    var g1 := Span(t, e1, Space);
    if e1 == 0 || g1 == e1 then None else Some((e1, g1))
  }

  /** `(\d+)%\s+` at `p`. */
  function PercentField(t: string, p: nat): (r: Option<(nat, nat)>)
    requires p <= |t|
    ensures r.Some? ==> p < r.value.0 && r.value.0 + 1 < r.value.1 <= |t| && t[r.value.0] == '%'
  {
    var e2 := Span(t, p, Digit);
    if e2 == p || e2 == |t| || t[e2] != '%' then None
    else
      var g2 := Span(t, e2 + 1, Space);
      if g2 == e2 + 1 then None else Some((e2, g2))
  }

  /** `([\d,]+\w+/\w+)\s+` at `p`. */
  function SpeedField(t: string, p: nat): (r: Option<(nat, nat)>)
    requires p <= |t|
    ensures r.Some? ==> p < r.value.0 < r.value.1 <= |t|
  {
    var a := Span(t, p, WordOrComma);
    if a == |t| || t[a] != '/' || !NumberUnit(t[p..a]) then None
    else
      var e3 := Span(t, a + 1, Word);
      var g3 := Span(t, e3, Space);
      if e3 == a + 1 || g3 == e3 then None else Some((e3, g3))
  }

  /** `(\d{1,2}:\d{2}:\d{2})` at `p`: where the time ends. */
  function MatchTime(t: string, p: nat): (e: Option<nat>)
    requires p <= |t|
    ensures e.Some? ==> p < e.value <= |t| && TimeToken(t[p..e.value])
  {
    if p + 7 <= |t| && TimeToken(t[p..p + 7]) then Some(p + 7)
    else if p + 8 <= |t| && TimeToken(t[p..p + 8]) then Some(p + 8)
    else None
  }

  /**
   * The regular expression, anchored at the start of `t`: the layout of `t`,
   * if it has one.  MatchProgressSound and MatchProgressComplete say that it
   * finds a layout exactly when `t` has one.
   */
  function MatchProgress(t: string): Option<Layout>
  {
    match BytesField(t)
    case None => None
    case Some((e1, g1)) =>
      match PercentField(t, g1)
      case None => None
      case Some((e2, s3)) =>
        match SpeedField(t, s3)
        case None => None
        case Some((e3, g3)) =>
          match MatchTime(t, g3)
          case None => None
          case Some(e4) =>
            Some(Layout(t[..e1], t[e1..g1], t[g1..e2], t[e2 + 1..s3], t[s3..e3], t[e3..g3], t[g3..e4], t[e4..]))
  }

  lemma SliceConcat(t: string, i: nat, j: nat)
    requires i <= j <= |t|
    ensures t[..i] + t[i..j] == t[..j]
  {
  }

  /** Cutting `t` at the points the matcher finds spells `t` again. */
  lemma CutsSpell(t: string, e1: nat, g1: nat, e2: nat, s3: nat, e3: nat, g3: nat, e4: nat)
    requires e1 <= g1 <= e2 < s3 <= e3 <= g3 <= e4 <= |t| && t[e2] == '%'
    ensures Spelled(Layout(t[..e1], t[e1..g1], t[g1..e2], t[e2 + 1..s3], t[s3..e3], t[e3..g3], t[g3..e4], t[e4..])) == t
  {
    SliceConcat(t, e1, g1);
    SliceConcat(t, g1, e2);
    assert t[e2..e2 + 1] == "%";
    SliceConcat(t, e2, e2 + 1);
    SliceConcat(t, e2 + 1, s3);
    SliceConcat(t, s3, e3);
    SliceConcat(t, e3, g3);
    SliceConcat(t, g3, e4);
    assert t[..e4] + t[e4..] == t;
  }

  lemma BytesFieldSound(t: string)
    requires BytesField(t).Some?
    ensures var (e1, g1) := BytesField(t).value;
      Run(t[..e1], DigitOrDot) && Run(t[e1..g1], Space)
  {
    SpanShape(t, 0, DigitOrDot);
    SpanShape(t, Span(t, 0, DigitOrDot), Space);
  }

  lemma PercentFieldSound(t: string, p: nat)
    requires p <= |t| && PercentField(t, p).Some?
    ensures var (e2, g2) := PercentField(t, p).value;
      Run(t[p..e2], Digit) && Run(t[e2 + 1..g2], Space)
  {
    SpanShape(t, p, Digit);
    SpanShape(t, Span(t, p, Digit) + 1, Space);
  }

  lemma SpeedFieldSound(t: string, p: nat)
    requires p <= |t| && SpeedField(t, p).Some?
    ensures var (e3, g3) := SpeedField(t, p).value;
      SpeedToken(t[p..e3]) && Run(t[e3..g3], Space)
  {
    var a := Span(t, p, WordOrComma);
    var e3 := Span(t, a + 1, Word);
    SpanShape(t, a + 1, Word);
    SpanShape(t, e3, Space);
    NumberUnitChars(t[p..a]);
    var sp := t[p..e3];
    var j := a - p;
    assert sp[j] == '/' && sp[..j] == t[p..a] && sp[j + 1..] == t[a + 1..e3];
    assert SlashAt(sp, j);
  }

  /** Where each piece of a layout stands in the line it spells. */
  lemma SpelledSlices(l: Layout)
    ensures var t := Spelled(l);
      var e1 := |l.bytes|;
      var g1 := e1 + |l.gap1|;
      var e2 := g1 + |l.percent|;
      var s3 := e2 + 1 + |l.gap2|;
      var e3 := s3 + |l.speed|;
      var g3 := e3 + |l.gap3|;
      var e4 := g3 + |l.time|;
      && e4 + |l.rest| == |t|
      && t[..e1] == l.bytes && t[e1..g1] == l.gap1 && t[g1..e2] == l.percent && t[e2] == '%'
      && t[e2 + 1..s3] == l.gap2 && t[s3..e3] == l.speed && t[e3..g3] == l.gap3
      && t[g3..e4] == l.time && t[e4..] == l.rest
  {
    var t := Spelled(l);
    var p1 := l.bytes;
    var p2 := p1 + l.gap1;
    var p3 := p2 + l.percent;
    var p4 := p3 + "%";
    var p5 := p4 + l.gap2;
    var p6 := p5 + l.speed;
    var p7 := p6 + l.gap3;
    var p8 := p7 + l.time;
    assert t == p8 + l.rest;
    assert t[..|p8|] == p8 && t[|p8|..] == l.rest;
    PrefixPiece(t, p7, l.time);
    PrefixPiece(t, p6, l.gap3);
    PrefixPiece(t, p5, l.speed);
    PrefixPiece(t, p4, l.gap2);
    PrefixPiece(t, p3, "%");
    PrefixPiece(t, p2, l.percent);
    PrefixPiece(t, p1, l.gap1);
  }

  /** A prefix `p + x` of `t` has `p` as a prefix and `x` right after it. */
  lemma PrefixPiece(t: string, p: string, x: string)
    requires |p + x| <= |t| && t[..|p + x|] == p + x
    ensures t[..|p|] == p && t[|p|..|p| + |x|] == x
  {
    assert t[..|p|] == (p + x)[..|p|];
    assert t[|p|..|p| + |x|] == (p + x)[|p|..];
  }

  /** The cut points of a layout, in the order the matcher meets them. */
  datatype Cuts = Cuts(e1: nat, g1: nat, e2: nat, s3: nat, e3: nat, g3: nat, e4: nat)

  function CutsOf(l: Layout, j: nat): Cuts {
    var e1 := |l.bytes|;
    var g1 := e1 + |l.gap1|;
    var e2 := g1 + |l.percent|;
    var s3 := e2 + 1 + |l.gap2|;
    var e3 := s3 + |l.speed|;
    var g3 := e3 + |l.gap3|;
    Cuts(e1, g1, e2, s3, e3, g3, g3 + |l.time|)
  }

  // One lemma per run of the pattern: in the line a layout spells, each run
  // ends where its piece ends.

  lemma BytesSpan(l: Layout, j: nat)
    requires WellFormed(l) && SlashAt(l.speed, j)
    ensures Span(Spelled(l), 0, DigitOrDot) == CutsOf(l, j).e1
  {
    var t, c := Spelled(l), CutsOf(l, j);
    assert t[..c.e1] == l.bytes;
    assert t[c.e1] == l.gap1[0];
    SpanIs(t, 0, c.e1, DigitOrDot);
  }

  lemma Gap1Span(l: Layout, j: nat)
    requires WellFormed(l) && SlashAt(l.speed, j)
    ensures Span(Spelled(l), CutsOf(l, j).e1, Space) == CutsOf(l, j).g1
  {
    var t, c := Spelled(l), CutsOf(l, j);
    assert t[c.e1..c.g1] == l.gap1;
    assert t[c.g1] == l.percent[0];
    SpanIs(t, c.e1, c.g1, Space);
  }

  lemma PercentSpan(l: Layout, j: nat)
    requires WellFormed(l) && SlashAt(l.speed, j)
    ensures Span(Spelled(l), CutsOf(l, j).g1, Digit) == CutsOf(l, j).e2
    ensures Spelled(l)[CutsOf(l, j).e2] == '%'
  {
    var t, c := Spelled(l), CutsOf(l, j);
    assert t[c.g1..c.e2] == l.percent;
    assert t[c.e2] == '%';
    SpanIs(t, c.g1, c.e2, Digit);
  }

  lemma Gap2Span(l: Layout, j: nat)
    requires WellFormed(l) && SlashAt(l.speed, j)
    ensures Span(Spelled(l), CutsOf(l, j).e2 + 1, Space) == CutsOf(l, j).s3
  {
    var t, c := Spelled(l), CutsOf(l, j);
    var k :| 0 < k < j && AllIn(l.speed[..j][..k], DigitOrComma) && AllIn(l.speed[..j][k..], Word);
    assert t[c.e2 + 1..c.s3] == l.gap2;
    assert t[c.s3] == l.speed[..j][..k][0];
    SpanIs(t, c.e2 + 1, c.s3, Space);
  }

  lemma NumberSpan(l: Layout, j: nat)
    requires WellFormed(l) && SlashAt(l.speed, j)
    ensures var t, c := Spelled(l), CutsOf(l, j);
      Span(t, c.s3, WordOrComma) == c.s3 + j && t[c.s3 + j] == '/' && NumberUnit(t[c.s3..c.s3 + j])
  {
    var t, c := Spelled(l), CutsOf(l, j);
    NumberUnitChars(l.speed[..j]);
    assert t[c.s3..c.s3 + j] == l.speed[..j];
    assert t[c.s3 + j] == '/';
    SpanIs(t, c.s3, c.s3 + j, WordOrComma);
  }

  lemma UnitSpan(l: Layout, j: nat)
    requires WellFormed(l) && SlashAt(l.speed, j)
    ensures Span(Spelled(l), CutsOf(l, j).s3 + j + 1, Word) == CutsOf(l, j).e3
  {
    var t, c := Spelled(l), CutsOf(l, j);
    assert t[c.s3 + j + 1..c.e3] == l.speed[j + 1..];
    assert t[c.e3] == l.gap3[0];
    SpanIs(t, c.s3 + j + 1, c.e3, Word);
  }

  lemma Gap3Span(l: Layout, j: nat)
    requires WellFormed(l) && SlashAt(l.speed, j)
    ensures Span(Spelled(l), CutsOf(l, j).e3, Space) == CutsOf(l, j).g3
  {
    var t, c := Spelled(l), CutsOf(l, j);
    assert t[c.e3..c.g3] == l.gap3;
    assert t[c.g3] == l.time[0];
    SpanIs(t, c.e3, c.g3, Space);
  }

  lemma TimeSpan(l: Layout, j: nat)
    requires WellFormed(l) && SlashAt(l.speed, j)
    ensures MatchTime(Spelled(l), CutsOf(l, j).g3) == Some(CutsOf(l, j).e4)
  {
    var t, c := Spelled(l), CutsOf(l, j);
    assert t[c.g3..c.e4] == l.time;
    if |l.time| == 8 {
      assert t[c.g3..c.g3 + 7][1] == l.time[1];
    }
  }

  lemma BytesFieldOf(l: Layout, j: nat)
    requires WellFormed(l) && SlashAt(l.speed, j)
    ensures BytesField(Spelled(l)) == Some((CutsOf(l, j).e1, CutsOf(l, j).g1))
  {
    BytesSpan(l, j);
    Gap1Span(l, j);
  }

  lemma PercentFieldOf(l: Layout, j: nat)
    requires WellFormed(l) && SlashAt(l.speed, j)
    ensures CutsOf(l, j).g1 <= |Spelled(l)|
    ensures PercentField(Spelled(l), CutsOf(l, j).g1) == Some((CutsOf(l, j).e2, CutsOf(l, j).s3))
  {
    PercentSpan(l, j);
    Gap2Span(l, j);
  }

  lemma SpeedFieldOf(l: Layout, j: nat)
    requires WellFormed(l) && SlashAt(l.speed, j)
    ensures CutsOf(l, j).s3 <= |Spelled(l)|
    ensures SpeedField(Spelled(l), CutsOf(l, j).s3) == Some((CutsOf(l, j).e3, CutsOf(l, j).g3))
  {
    var t, c := Spelled(l), CutsOf(l, j);
    NumberSpan(l, j);
    UnitSpan(l, j);
    Gap3Span(l, j);
    SpeedFieldAt(t, c.s3, c.s3 + j, c.e3, c.g3);
  }

  /** `SpeedField` at `p`, given where its three runs end. */
  lemma SpeedFieldAt(t: string, p: nat, a: nat, e3: nat, g3: nat)
    requires p <= a < |t| && a == Span(t, p, WordOrComma) && t[a] == '/' && NumberUnit(t[p..a])
    requires a + 1 < e3 == Span(t, a + 1, Word)
    requires e3 < g3 == Span(t, e3, Space)
    ensures SpeedField(t, p) == Some((e3, g3))
  {
  }

  /** The matcher, once each field has been found. */
  lemma MatchFromFields(t: string, c: Cuts, l: Layout)
    requires c.g1 <= |t| && c.s3 <= |t| && c.g3 <= |t|
    requires BytesField(t) == Some((c.e1, c.g1))
    requires PercentField(t, c.g1) == Some((c.e2, c.s3))
    requires SpeedField(t, c.s3) == Some((c.e3, c.g3))
    requires MatchTime(t, c.g3) == Some(c.e4)
    requires l == Layout(t[..c.e1], t[c.e1..c.g1], t[c.g1..c.e2], t[c.e2 + 1..c.s3], t[c.s3..c.e3], t[c.e3..c.g3], t[c.g3..c.e4], t[c.e4..])
    ensures MatchProgress(t) == Some(l)
  {
  }

  /** Whatever the matcher finds is a well-formed layout that spells the line. */
  lemma MatchProgressSound(t: string)
    ensures MatchProgress(t).Some? ==> WellFormed(MatchProgress(t).value) && Spelled(MatchProgress(t).value) == t
  {
    match BytesField(t)
    case None =>
    case Some((e1, g1)) =>
      match PercentField(t, g1)
      case None =>
      case Some((e2, s3)) =>
        match SpeedField(t, s3)
        case None =>
        case Some((e3, g3)) =>
          match MatchTime(t, g3)
          case None =>
          case Some(e4) =>
            MatchFromFields(t, Cuts(e1, g1, e2, s3, e3, g3, e4),
              Layout(t[..e1], t[e1..g1], t[g1..e2], t[e2 + 1..s3], t[s3..e3], t[e3..g3], t[g3..e4], t[e4..]));
            BytesFieldSound(t);
            PercentFieldSound(t, g1);
            SpeedFieldSound(t, s3);
            CutsSpell(t, e1, g1, e2, s3, e3, g3, e4);
  }

  lemma SlicesOfSpelled(l: Layout, j: nat)
    requires WellFormed(l) && SlashAt(l.speed, j)
    ensures var t, c := Spelled(l), CutsOf(l, j);
      l == Layout(t[..c.e1], t[c.e1..c.g1], t[c.g1..c.e2], t[c.e2 + 1..c.s3], t[c.s3..c.e3], t[c.e3..c.g3], t[c.g3..c.e4], t[c.e4..])
  {
    SpelledSlices(l);
  }

  /** Every well-formed layout is found: the matcher misses no progress line. */
  lemma MatchProgressComplete(l: Layout)
    requires WellFormed(l)
    ensures MatchProgress(Spelled(l)) == Some(l)
  {
    var j :| 0 < j < |l.speed| - 1 && SlashAt(l.speed, j);
    BytesFieldOf(l, j);
    PercentFieldOf(l, j);
    SpeedFieldOf(l, j);
    TimeSpan(l, j);
    SlicesOfSpelled(l, j);
    MatchFromFields(Spelled(l), CutsOf(l, j), l);
  }

  // ---------------------------------------------------------------------------
  // parse_rsync_progress

  lemma {:induction false} RemoveDotsLeavesDigits(s: string)
    requires AllIn(s, DigitOrDot)
    ensures AllIn(RemoveChar(s, '.'), Digit)
  {
    if |s| > 0 {
      RemoveDotsLeavesDigits(s[..|s| - 1]);
    }
  }

  /**
   * The conversions after the match: the bytes field without its '.'
   * separators read as a u64, the percentage read as a u8, the speed and the
   * time kept as text.
   */
  function Convert(l: Layout): (r: Option<RsyncProgress>)
    requires WellFormed(l)
    ensures var ds := RemoveChar(l.bytes, '.');
      AllIn(ds, Digit) &&
      (r.Some? <==> |ds| > 0 && DecimalValue(ds) <= U64_MAX && DecimalValue(l.percent) <= U8_MAX) &&
      (r.Some? ==> r.value == RsyncProgress(DecimalValue(ds), DecimalValue(l.percent), l.speed, l.time))
  {
    RemoveDotsLeavesDigits(l.bytes);
    match ParseU64(RemoveChar(l.bytes, '.'))
    case None => None
    case Some(bytes) =>
      match ParseU8(l.percent)
      case None => None
      case Some(percentage) => Some(RsyncProgress(bytes, percentage, l.speed, l.time))
  }

  /** `parse_rsync_progress`: the pattern is matched against the trimmed line. */
  function ParseRsyncProgress(line: string): (r: Option<RsyncProgress>)
    ensures r.Some? ==> r.value.bytesTransferred <= U64_MAX && r.value.percentage <= U8_MAX
  {
    var t := Trim(line);
    MatchProgressSound(t);
    match MatchProgress(t)
    case None => None
    case Some(l) => Convert(l)
  }

  /** A line whose trimmed text has a well-formed layout is parsed by converting that layout. */
  lemma ParseFromLayout(line: string, l: Layout)
    requires WellFormed(l) && Spelled(l) == Trim(line)
    ensures ParseRsyncProgress(line) == Convert(l)
  {
    MatchProgressComplete(l);
  }

  /** A record comes only from a line whose trimmed text has a well-formed layout. */
  lemma ParseNeedsLayout(line: string)
    ensures ParseRsyncProgress(line).Some? ==>
      exists l :: WellFormed(l) && Spelled(l) == Trim(line) && ParseRsyncProgress(line) == Convert(l)
  {
    MatchProgressSound(Trim(line));
  }

  /** Whitespace around the line does not matter. */
  lemma ParseIgnoresSurroundingSpace(line: string)
    ensures ParseRsyncProgress(Trim(line)) == ParseRsyncProgress(line)
  {
    TrimIdempotent(line);
  }
}
