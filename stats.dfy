/**
 * `parse_rsync_stats` of src/main.rs: the output of `rsync --stats` folded,
 * line by line, into a map from statistic names to their text.  Three line
 * shapes are recognised: `key: value`, whose "Number of files" instance is
 * broken down into four entries, and the colon-free summary line
 * `total size is X  speedup is Y (T)`.
 */
module Stats {
  import opened Wrappers
  import opened Text
  import opened Regex

  const NumberOfFiles := "Number of files"
  const TotalKey := "Number of files (total)"
  const RegularKey := "Number of files (regular)"
  const DirectoriesKey := "Number of files (directories)"
  const LinksKey := "Number of files (links)"
  const SummaryKey := "Total size (summary)"
  const SpeedupKey := "Speedup"
  const RunTypeKey := "Run type"

  // ---------------------------------------------------------------------------
  // ^(.+?):\s*(.*)$

  /**
   * The key/value split of a trimmed line: the key is the text before the
   * first ':' that has at least one character in front of it, the value the
   * text after it; both are trimmed.
   */
  function KeyValue(t: string): (r: Option<(string, string)>)
    ensures r.Some? <==> exists k | 1 <= k < |t| :: t[k] == ':'
    ensures r.Some? ==> exists k: nat :: FirstColon(t, k) && r.value == (Trim(t[..k]), Trim(t[k + 1..]))
  {
    if |t| == 0 then None
    else
      var k := Find(t, ':', 1);
      if k == |t| then None
      else
        var j := Span(t, k + 1, Space);  // `\s*` before the value
        SpanShape(t, k + 1, Space);
        var kv := (Trim(t[..k]), Trim(t[j..]));
        SkipSpaceBeforeValue(t, k, j);
        assert FirstColon(t, k) && kv == (Trim(t[..k]), Trim(t[k + 1..]));
        Some(kv)
  }

  /** `k` is the first ':' of `t` that has a character in front of it. */
  predicate FirstColon(t: string, k: nat) {
    1 <= k < |t| && t[k] == ':' && forall m | 1 <= m < k :: t[m] != ':'
  }

  lemma SkipSpaceBeforeValue(t: string, k: nat, j: nat)
    requires k < j <= |t| || (k < |t| && j == k + 1)
    requires IsBlank(t[k + 1..j])
    ensures Trim(t[j..]) == Trim(t[k + 1..])
  {
    var rest := t[k + 1..];
    assert rest[..j - (k + 1)] == t[k + 1..j];
    assert rest[j - (k + 1)..] == t[j..];
    TrimStartSkipsBlank(rest, j - (k + 1));
  }

  lemma FirstColonUnique(t: string, k1: nat, k2: nat)
    requires FirstColon(t, k1) && FirstColon(t, k2)
    ensures k1 == k2
  {
  }

  /** A key without a ':' after its first character, then ':', splits there. */
  lemma KeyValueOf(key: string, rest: string)
    requires |key| >= 1 && forall m | 1 <= m < |key| :: key[m] != ':'
    ensures KeyValue(key + ":" + rest) == Some((Trim(key), Trim(rest)))
  {
    var t := key + ":" + rest;
    assert t[..|key|] == key;
    assert t[|key| + 1..] == rest;
    assert FirstColon(t, |key|) by {
      forall m | 1 <= m < |key| ensures t[m] != ':' {
        assert t[m] == key[m];
      }
    }
    var r := KeyValue(t);
    var k: nat :| FirstColon(t, k) && r.value == (Trim(t[..k]), Trim(t[k + 1..]));
    FirstColonUnique(t, k, |key|);
  }

  // ---------------------------------------------------------------------------
  // ([\d.]+)\s+\(reg:\s*([\d.]+),\s*dir:\s*([\d.]+)(?:,\s*link:\s*([\d.]+))?\s*\)
  // total size is ([\d.]+)\s+speedup is ([\d.,]+)\s+\((.*)\)

  /** Up to the directory count: words 0 (total), 4 (regular) and 9 (directories) are captured. */
  const NumFilesHead: seq<Piece> := [
    Many(DigitOrDot, 1), Many(Space, 1), Lit("(reg:"), Many(Space, 0), Many(DigitOrDot, 1),
    Lit(","), Many(Space, 0), Lit("dir:"), Many(Space, 0), Many(DigitOrDot, 1)]

  /** The optional link group taken, then the closing parenthesis: word 4 is the link count. */
  const LinkTail: seq<Piece> := [
    Lit(","), Many(Space, 0), Lit("link:"), Many(Space, 0), Many(DigitOrDot, 1),
    Many(Space, 0), Lit(")")]

  /** The optional link group skipped. */
  const CloseTail: seq<Piece> := [Many(Space, 0), Lit(")")]

  /** Up to the opening parenthesis: words 1 (total size) and 4 (speedup) are captured. */
  const TotalSpeedupHead: seq<Piece> := [
    Lit("total size is "), Many(DigitOrDot, 1), Many(Space, 1), Lit("speedup is "),
    Many(DigitDotComma, 1), Many(Space, 1), Lit("(")]

  lemma PatternsGuarded()
    ensures Guarded(NumFilesHead + LinkTail)
    ensures Guarded(NumFilesHead + CloseTail)
    ensures Guarded(TotalSpeedupHead)
  {
    GuardedCons(Lit(")"), []);
    GuardedCons(Many(Space, 0), [Lit(")")]);
    assert [Many(Space, 0)] + [Lit(")")] == CloseTail;
    LinkTailGuarded();
    assert StopsBefore(DigitOrDot, LinkTail) && StopsBefore(DigitOrDot, CloseTail);
    GuardedHead(LinkTail);
    GuardedHead(CloseTail);
    TotalSpeedupGuarded();
  }

  lemma LinkTailGuarded()
    ensures Guarded(LinkTail)
  {
    var ps := [Lit(")")];
    GuardedCons(Lit(")"), []);
    GuardedCons(Many(Space, 0), ps);
    ps := [Many(Space, 0)] + ps;
    GuardedCons(Many(DigitOrDot, 1), ps);
    ps := [Many(DigitOrDot, 1)] + ps;
    GuardedCons(Many(Space, 0), ps);
    ps := [Many(Space, 0)] + ps;
    LinkTailFront(ps);
    assert [Lit(","), Many(Space, 0), Lit("link:")] + ps == LinkTail;
  }

  lemma LinkTailFront(ps: seq<Piece>)
    requires Guarded(ps)
    ensures Guarded([Lit(","), Many(Space, 0), Lit("link:")] + ps)
  {
    GuardedCons(Lit("link:"), ps);
    GuardedCons(Many(Space, 0), [Lit("link:")] + ps);
    GuardedCons(Lit(","), [Many(Space, 0)] + ([Lit("link:")] + ps));
    assert [Lit(",")] + ([Many(Space, 0)] + ([Lit("link:")] + ps))
      == [Lit(","), Many(Space, 0), Lit("link:")] + ps;
  }

  lemma TotalSpeedupGuarded()
    ensures Guarded(TotalSpeedupHead)
  {
    var ps := [Lit("(")];
    GuardedCons(Lit("("), []);
    GuardedCons(Many(Space, 1), ps);
    ps := [Many(Space, 1)] + ps;
    GuardedCons(Many(DigitDotComma, 1), ps);
    ps := [Many(DigitDotComma, 1)] + ps;
    GuardedCons(Lit("speedup is "), ps);
    ps := [Lit("speedup is ")] + ps;
    TotalSpeedupFront(ps);
    assert [Lit("total size is "), Many(DigitOrDot, 1), Many(Space, 1)] + ps == TotalSpeedupHead;
  }

  lemma TotalSpeedupFront(ps: seq<Piece>)
    requires Guarded(ps) && |ps| > 0 && ps[0] == Lit("speedup is ")
    ensures Guarded([Lit("total size is "), Many(DigitOrDot, 1), Many(Space, 1)] + ps)
  {
    GuardedCons(Many(Space, 1), ps);
    GuardedCons(Many(DigitOrDot, 1), [Many(Space, 1)] + ps);
    GuardedCons(Lit("total size is "), [Many(DigitOrDot, 1)] + ([Many(Space, 1)] + ps));
    assert [Lit("total size is ")] + ([Many(DigitOrDot, 1)] + ([Many(Space, 1)] + ps))
      == [Lit("total size is "), Many(DigitOrDot, 1), Many(Space, 1)] + ps;
  }

  /** The head is guarded in front of a guarded tail that stops its last count. */
  lemma GuardedHead(tail: seq<Piece>)
    requires StopsBefore(DigitOrDot, tail) && Guarded(tail)
    ensures Guarded(NumFilesHead + tail)
  {
    var dir := [Many(Space, 0), Lit("dir:"), Many(Space, 0), Many(DigitOrDot, 1)];
    var reg := [Many(Space, 0), Many(DigitOrDot, 1), Lit(",")];
    var total := [Many(DigitOrDot, 1), Many(Space, 1), Lit("(reg:")];
    GuardedDir(tail);
    GuardedReg(dir + tail);
    GuardedTotal(reg + (dir + tail));
    assert NumFilesHead + tail == total + (reg + (dir + tail));
  }

  lemma GuardedDir(tail: seq<Piece>)
    requires StopsBefore(DigitOrDot, tail) && Guarded(tail)
    ensures Guarded([Many(Space, 0), Lit("dir:"), Many(Space, 0), Many(DigitOrDot, 1)] + tail)
  {
    var ps := [Many(DigitOrDot, 1)] + tail;
    GuardedCons(Many(DigitOrDot, 1), tail);
    GuardedCons(Many(Space, 0), ps);
    ps := [Many(Space, 0)] + ps;
    GuardedCons(Lit("dir:"), ps);
    ps := [Lit("dir:")] + ps;
    GuardedCons(Many(Space, 0), ps);
    ps := [Many(Space, 0)] + ps;
    assert ps == [Many(Space, 0), Lit("dir:"), Many(Space, 0), Many(DigitOrDot, 1)] + tail;
  }

  lemma GuardedReg(tail: seq<Piece>)
    requires Guarded(tail)
    ensures Guarded([Many(Space, 0), Many(DigitOrDot, 1), Lit(",")] + tail)
  {
    GuardedCons(Lit(","), tail);
    GuardedCons(Many(DigitOrDot, 1), [Lit(",")] + tail);
    GuardedCons(Many(Space, 0), [Many(DigitOrDot, 1)] + ([Lit(",")] + tail));
    assert [Many(Space, 0)] + ([Many(DigitOrDot, 1)] + ([Lit(",")] + tail))
      == [Many(Space, 0), Many(DigitOrDot, 1), Lit(",")] + tail;
  }

  lemma GuardedTotal(tail: seq<Piece>)
    requires Guarded(tail) && |tail| > 0 && tail[0] == Many(Space, 0) && StopsBefore(Space, tail[1..])
    ensures Guarded([Many(DigitOrDot, 1), Many(Space, 1), Lit("(reg:")] + tail)
  {
    GuardedCons(Lit("(reg:"), tail);
    GuardedCons(Many(Space, 1), [Lit("(reg:")] + tail);
    GuardedCons(Many(DigitOrDot, 1), [Many(Space, 1)] + ([Lit("(reg:")] + tail));
    assert [Many(DigitOrDot, 1)] + ([Many(Space, 1)] + ([Lit("(reg:")] + tail))
      == [Many(DigitOrDot, 1), Many(Space, 1), Lit("(reg:")] + tail;
  }

  datatype StatsPattern = NumFilesPattern | TotalSpeedupPattern

  /** How many groups a pattern captures. */
  function Arity(p: StatsPattern): nat {
    match p
    case NumFilesPattern => 4
    case TotalSpeedupPattern => 3
  }

  /**
   * The groups captured by a match of `p` starting at index `i` of `s`.  The
   * optional link group is tried before it is skipped, and is "" when
   * skipped; `(.*)\)` reaches the last ')' of the text.  Rust's `.` does
   * not match '\n'; the text here is always one trimmed line of `Lines`,
   * which holds no '\n', so "the last ')'" is the last one `.*` can reach.
   */
  function CapturesAt(p: StatsPattern, s: string, i: nat): (r: Option<seq<string>>)
    requires i <= |s|
    ensures r.Some? ==> |r.value| == Arity(p)
  {
    match p
    case NumFilesPattern =>
      (match MatchAt(NumFilesHead + LinkTail, s, i)
       case Some(w) =>
         MatchSound(NumFilesHead + LinkTail, s, i);
         Some([w[0], w[4], w[9], w[14]])
       case None =>
         match MatchAt(NumFilesHead + CloseTail, s, i)
         case Some(w) =>
           MatchSound(NumFilesHead + CloseTail, s, i);
           Some([w[0], w[4], w[9], ""])
         case None => None)
    case TotalSpeedupPattern =>
      match MatchAt(TotalSpeedupHead, s, i)
      case None => None
      case Some(w) =>
        MatchSound(TotalSpeedupHead, s, i);
        var open := i + |Concat(w)|;
        match LastIndexOf(s, ')', open)
        case None => None
        case Some(close) => Some([w[1], w[4], s[open..close]])
  }

  /** `Regex::captures`: the match that starts leftmost, searching from `from`. */
  function Leftmost(p: StatsPattern, s: string, from: nat): (r: Option<seq<string>>)
    requires from <= |s|
    ensures r.Some? ==> |r.value| == Arity(p)
    decreases |s| - from
  {
    if CapturesAt(p, s, from).Some? then CapturesAt(p, s, from)
    else if from == |s| then None
    else Leftmost(p, s, from + 1)
  }

  /** `Leftmost` finds the match that starts first, and finds none only when there is none. */
  lemma LeftmostIsFirst(p: StatsPattern, s: string, from: nat)
    requires from <= |s|
    ensures var r := Leftmost(p, s, from);
      && (r.None? <==> forall i | from <= i <= |s| :: CapturesAt(p, s, i).None?)
      && (r.Some? ==> exists i | from <= i <= |s| ::
            CapturesAt(p, s, i) == r && forall k | from <= k < i :: CapturesAt(p, s, k).None?)
  {
    LeftmostNone(p, s, from);
    LeftmostSome(p, s, from);
  }

  lemma {:induction false} LeftmostNone(p: StatsPattern, s: string, from: nat)
    requires from <= |s|
    ensures Leftmost(p, s, from).None? <==> forall i | from <= i <= |s| :: CapturesAt(p, s, i).None?
    decreases |s| - from
  {
    if CapturesAt(p, s, from).Some? {
      assert Leftmost(p, s, from).Some?;
    } else if from < |s| {
      LeftmostNone(p, s, from + 1);
      assert Leftmost(p, s, from) == Leftmost(p, s, from + 1);
    }
  }

  lemma {:induction false} LeftmostSome(p: StatsPattern, s: string, from: nat)
    requires from <= |s|
    ensures var r := Leftmost(p, s, from);
      r.Some? ==> exists i | from <= i <= |s| ::
        CapturesAt(p, s, i) == r && forall k | from <= k < i :: CapturesAt(p, s, k).None?
    decreases |s| - from
  {
    var here := CapturesAt(p, s, from);
    if here.None? && from < |s| {
      LeftmostSome(p, s, from + 1);
      var r := Leftmost(p, s, from + 1);
      if r.Some? {
        var i :| from + 1 <= i <= |s| &&
          CapturesAt(p, s, i) == r && forall k | from + 1 <= k < i :: CapturesAt(p, s, k).None?;
        assert forall k | from <= k < i :: CapturesAt(p, s, k).None?;
      }
    }
  }

  /**
   * A count breakdown without a link count is captured with "" for links:
   * `N (reg: R, dir: D)` in any spacing the pattern allows, followed by anything.
   */
  lemma NumFilesWithoutLinks(w: seq<string>, rest: string)
    requires Fits(NumFilesHead + CloseTail, w)
    ensures Leftmost(NumFilesPattern, Concat(w) + rest, 0) == Some([w[0], w[4], w[9], ""])
  {
    var s := Concat(w) + rest;
    PatternsGuarded();
    assert s[..|Concat(w)|] == Concat(w);
    MatchComplete(NumFilesHead + CloseTail, w, s, 0);
    assert StopsBefore(DigitDotComma, CloseTail);
    ExclusiveTails(NumFilesHead, CloseTail, LinkTail, DigitDotComma, s, 0);
  }

  /** A count breakdown with a link count captures all four numbers. */
  lemma NumFilesWithLinks(w: seq<string>, rest: string)
    requires Fits(NumFilesHead + LinkTail, w)
    ensures Leftmost(NumFilesPattern, Concat(w) + rest, 0) == Some([w[0], w[4], w[9], w[14]])
  {
    var s := Concat(w) + rest;
    PatternsGuarded();
    assert s[..|Concat(w)|] == Concat(w);
    MatchComplete(NumFilesHead + LinkTail, w, s, 0);
  }

  /**
   * The summary line captures the total size, the speedup and the text up to
   * the last ')' of the line.
   */
  lemma TotalSpeedupFound(w: seq<string>, runType: string, rest: string)
    requires Fits(TotalSpeedupHead, w)
    requires ')' !in rest
    ensures Leftmost(TotalSpeedupPattern, Concat(w) + runType + ")" + rest, 0)
      == Some([w[1], w[4], runType])
  {
    var head := Concat(w);
    var s := head + runType + ")" + rest;
    var close := |head| + |runType|;
    SummaryLayout(head, runType, rest);
    SummaryHeadMatches(w, s);
    LastIndexOfIs(s, ')', |head|, close);
    SummaryCapturedAt(w, s, close, runType);
  }

  lemma SummaryHeadMatches(w: seq<string>, s: string)
    requires Fits(TotalSpeedupHead, w) && OccursAt(s, Concat(w), 0)
    ensures MatchAt(TotalSpeedupHead, s, 0) == Some(w)
  {
    TotalSpeedupGuarded();
    MatchComplete(TotalSpeedupHead, w, s, 0);
  }

  lemma SummaryCapturedAt(w: seq<string>, s: string, close: nat, runType: string)
    requires MatchAt(TotalSpeedupHead, s, 0) == Some(w)
    requires |Concat(w)| <= close < |s| && LastIndexOf(s, ')', |Concat(w)|) == Some(close)
    requires s[|Concat(w)|..close] == runType
    ensures Leftmost(TotalSpeedupPattern, s, 0) == Some([w[1], w[4], runType])
  {
    MatchSound(TotalSpeedupHead, s, 0);
    assert CapturesAt(TotalSpeedupPattern, s, 0) == Some([w[1], w[4], runType]);
  }

  /** Where the pieces of a summary line lie in the line. */
  lemma SummaryLayout(head: string, runType: string, rest: string)
    requires ')' !in rest
    ensures var s := head + runType + ")" + rest;
      var close := |head| + |runType|;
      && close < |s|
      && OccursAt(s, head, 0)
      && s[|head|..close] == runType
      && s[close] == ')'
      && forall m | close < m < |s| :: s[m] != ')'
  {
    var s := head + runType + ")" + rest;
    var close := |head| + |runType|;
    assert s[..|head|] == head;
    forall m | close < m < |s| ensures s[m] != ')' {
      assert s[m] == rest[m - close - 1];
    }
  }

  // ---------------------------------------------------------------------------
  // The fold over the lines

  /** The entries of a "Number of files" line: the four counts, or nothing. */
  function CountEntries(c: Option<seq<string>>): (m: map<string, string>)
    requires c.Some? ==> |c.value| == 4
    ensures NumberOfFiles !in m
  {
    match c
    case Some(c) => map[TotalKey := c[0], RegularKey := c[1], DirectoriesKey := c[2], LinksKey := c[3]]
    case None => map[]
  }

  /** The entries of the summary line: size, speedup and run type, or nothing. */
  function SummaryEntries(c: Option<seq<string>>): (m: map<string, string>)
    requires c.Some? ==> |c.value| == 3
    ensures NumberOfFiles !in m
  {
    match c
    case Some(c) => map[SummaryKey := c[0], SpeedupKey := c[1], RunTypeKey := c[2]]
    case None => map[]
  }

  /** The entries one line of the statistics inserts into the map. */
  function LineEntries(line: string): (m: map<string, string>)
    ensures NumberOfFiles !in m
  {
    TrimmedLineEntries(Trim(line))
  }

  /** The entries of a line, once trimmed. */
  function TrimmedLineEntries(t: string): (m: map<string, string>)
    ensures NumberOfFiles !in m
  {
    if t == [] then map[]
    else
      match KeyValue(t)
      case Some((key, value)) =>
        if key == NumberOfFiles then CountEntries(Leftmost(NumFilesPattern, value, 0))
        else map[key := value]
      case None => SummaryEntries(Leftmost(TotalSpeedupPattern, t, 0))
  }

  /** Later maps overwrite earlier ones, as successive `HashMap::insert` calls do. */
  function Overlay(ms: seq<map<string, string>>): map<string, string> {
    if ms == [] then map[] else Overlay(ms[..|ms| - 1]) + ms[|ms| - 1]
  }

  /** A key is in the overlay exactly when one of the maps holds it. */
  lemma {:induction false} OverlayKeys(ms: seq<map<string, string>>, key: string)
    ensures key in Overlay(ms) <==> exists i | 0 <= i < |ms| :: key in ms[i]
  {
    if ms != [] {
      var init := ms[..|ms| - 1];
      OverlayKeys(init, key);
      if key in Overlay(init) {
        var i :| 0 <= i < |init| && key in init[i];
        assert ms[i] == init[i];
      }
      if exists i | 0 <= i < |ms| :: key in ms[i] {
        var i :| 0 <= i < |ms| && key in ms[i];
        if i < |init| {
          assert init[i] == ms[i];
        }
      }
    }
  }

  /** The value of a key in the overlay is the one the last map holding the key gives it. */
  lemma {:induction false} OverlayLastWriter(ms: seq<map<string, string>>, i: nat, key: string)
    requires i < |ms| && key in ms[i]
    requires forall j | i < j < |ms| :: key !in ms[j]
    ensures key in Overlay(ms) && Overlay(ms)[key] == ms[i][key]
  {
    var init := ms[..|ms| - 1];
    if i < |ms| - 1 {
      assert init[i] == ms[i];
      forall j | i < j < |init| ensures key !in init[j] {
        assert init[j] == ms[j];
      }
      OverlayLastWriter(init, i, key);
    }
  }

  /** The entries of each line, in order. */
  function EntriesOf(ls: seq<string>): (ms: seq<map<string, string>>)
    ensures |ms| == |ls| && forall i | 0 <= i < |ls| :: ms[i] == LineEntries(ls[i])
  {
    seq(|ls|, i requires 0 <= i < |ls| => LineEntries(ls[i]))
  }

  /** The map after the lines `ls`: each line's entries overwrite the earlier ones. */
  function StatsOf(ls: seq<string>): map<string, string> {
    Overlay(EntriesOf(ls))
  }

  /** A key is in the map exactly when some line inserts it. */
  lemma StatsKeys(ls: seq<string>, key: string)
    ensures key in StatsOf(ls) <==> exists i | 0 <= i < |ls| :: key in LineEntries(ls[i])
  {
    OverlayKeys(EntriesOf(ls), key);
  }

  /** The value of a key is the one the last line that inserts the key gave it. */
  lemma StatsLastWriter(ls: seq<string>, i: nat, key: string)
    requires i < |ls| && key in LineEntries(ls[i])
    requires forall j | i < j < |ls| :: key !in LineEntries(ls[j])
    ensures key in StatsOf(ls) && StatsOf(ls)[key] == LineEntries(ls[i])[key]
  {
    OverlayLastWriter(EntriesOf(ls), i, key);
  }

  /** One more line overwrites the map with its entries. */
  lemma StatsOfAppend(ls: seq<string>, line: string)
    ensures StatsOf(ls + [line]) == StatsOf(ls) + LineEntries(line)
  {
    assert EntriesOf(ls + [line])[..|ls|] == EntriesOf(ls);
  }

  /** "Number of files" itself is never a key of the map. */
  lemma StatsNeverNumberOfFiles(ls: seq<string>)
    ensures NumberOfFiles !in StatsOf(ls)
  {
    StatsKeys(ls, NumberOfFiles);
  }

  /**
   * A `key: value` line with any other key stores the trimmed value under the
   * trimmed key, unless a later line inserts that key again.
   */
  lemma KeyValueStored(ls: seq<string>, i: nat, key: string, value: string)
    requires i < |ls|
    requires KeyValue(Trim(ls[i])) == Some((key, value)) && key != NumberOfFiles
    requires forall j | i < j < |ls| :: key !in LineEntries(ls[j])
    ensures key in StatsOf(ls) && StatsOf(ls)[key] == value
  {
    assert LineEntries(ls[i]) == map[key := value];
    StatsLastWriter(ls, i, key);
  }

  /** The four keys a "Number of files" line stores. */
  const CountKeys: set<string> := {TotalKey, RegularKey, DirectoriesKey, LinksKey}

  /**
   * A "Number of files" line whose value holds a count breakdown stores the
   * four numbers it captures under the four derived keys, unless a later
   * line inserts one of them again.
   */
  lemma NumFilesStored(ls: seq<string>, i: nat, value: string, counts: seq<string>)
    requires i < |ls|
    requires KeyValue(Trim(ls[i])) == Some((NumberOfFiles, value))
    requires Leftmost(NumFilesPattern, value, 0) == Some(counts)
    requires forall j | i < j < |ls| :: LineEntries(ls[j]).Keys !! CountKeys
    ensures |counts| == 4
    ensures TotalKey in StatsOf(ls) && StatsOf(ls)[TotalKey] == counts[0]
    ensures RegularKey in StatsOf(ls) && StatsOf(ls)[RegularKey] == counts[1]
    ensures DirectoriesKey in StatsOf(ls) && StatsOf(ls)[DirectoriesKey] == counts[2]
    ensures LinksKey in StatsOf(ls) && StatsOf(ls)[LinksKey] == counts[3]
  {
    var m := LineEntries(ls[i]);
    assert m == map[TotalKey := counts[0], RegularKey := counts[1], DirectoriesKey := counts[2], LinksKey := counts[3]];
    StatsLastWriter(ls, i, TotalKey);
    StatsLastWriter(ls, i, RegularKey);
    StatsLastWriter(ls, i, DirectoriesKey);
    StatsLastWriter(ls, i, LinksKey);
  }

  /**
   * "Number of files: N (reg: R, dir: D)" stores N, R and D, and "" as the
   * link count, unless a later line inserts one of the four keys again.
   */
  lemma NumFilesWithoutLinksStored(ls: seq<string>, i: nat, w: seq<string>, rest: string)
    requires i < |ls| && Fits(NumFilesHead + CloseTail, w)
    requires KeyValue(Trim(ls[i])) == Some((NumberOfFiles, Concat(w) + rest))
    requires forall j | i < j < |ls| :: LineEntries(ls[j]).Keys !! CountKeys
    ensures TotalKey in StatsOf(ls) && StatsOf(ls)[TotalKey] == w[0]
    ensures RegularKey in StatsOf(ls) && StatsOf(ls)[RegularKey] == w[4]
    ensures DirectoriesKey in StatsOf(ls) && StatsOf(ls)[DirectoriesKey] == w[9]
    ensures LinksKey in StatsOf(ls) && StatsOf(ls)[LinksKey] == ""
  {
    NumFilesWithoutLinks(w, rest);
    NumFilesStored(ls, i, Concat(w) + rest, [w[0], w[4], w[9], ""]);
  }

  /** "Number of files: N (reg: R, dir: D, link: L)" stores all four numbers. */
  lemma NumFilesWithLinksStored(ls: seq<string>, i: nat, w: seq<string>, rest: string)
    requires i < |ls| && Fits(NumFilesHead + LinkTail, w)
    requires KeyValue(Trim(ls[i])) == Some((NumberOfFiles, Concat(w) + rest))
    requires forall j | i < j < |ls| :: LineEntries(ls[j]).Keys !! CountKeys
    ensures TotalKey in StatsOf(ls) && StatsOf(ls)[TotalKey] == w[0]
    ensures RegularKey in StatsOf(ls) && StatsOf(ls)[RegularKey] == w[4]
    ensures DirectoriesKey in StatsOf(ls) && StatsOf(ls)[DirectoriesKey] == w[9]
    ensures LinksKey in StatsOf(ls) && StatsOf(ls)[LinksKey] == w[14]
  {
    NumFilesWithLinks(w, rest);
    NumFilesStored(ls, i, Concat(w) + rest, [w[0], w[4], w[9], w[14]]);
  }

  /** A line that matches none of the shapes leaves the map as it was. */
  lemma UnmatchedLineKeepsStats(ls: seq<string>, line: string)
    requires KeyValue(Trim(line)).None? && Leftmost(TotalSpeedupPattern, Trim(line), 0).None?
    ensures StatsOf(ls + [line]) == StatsOf(ls)
  {
    StatsOfAppend(ls, line);
    assert LineEntries(line) == map[];
  }

  /** `parse_rsync_stats`: insert the entries of each line, in order. */
  method ParseRsyncStats(text: string) returns (stats: map<string, string>)
    ensures stats == StatsOf(Lines(text))
  {
    stats := map[];
    var lines := Lines(text);
    for n := 0 to |lines|
      invariant stats == StatsOf(lines[..n])
    {
      assert lines[..n + 1] == lines[..n] + [lines[n]];
      StatsOfAppend(lines[..n], lines[n]);
      var trimmed := Trim(lines[n]);
      if trimmed == [] {
        continue;
      }
      stats := InsertLine(stats, trimmed);
    }
    assert lines[..|lines|] == lines;
  }

  /** The body of the loop for one non-blank trimmed line. */
  method InsertLine(before: map<string, string>, trimmed: string) returns (stats: map<string, string>)
    requires trimmed != []
    ensures stats == before + TrimmedLineEntries(trimmed)
  {
    match KeyValue(trimmed) {
      case Some((key, value)) =>
        if key == NumberOfFiles {
          stats := InsertCounts(before, Leftmost(NumFilesPattern, value, 0));
        } else {
          stats := before[key := value];
        }
      case None =>
        stats := InsertSummary(before, Leftmost(TotalSpeedupPattern, trimmed, 0));
    }
  }

  /** Inserts the four counts of a "Number of files" line, when its pattern matched. */
  method InsertCounts(before: map<string, string>, found: Option<seq<string>>) returns (stats: map<string, string>)
    requires found.Some? ==> |found.value| == 4
    ensures stats == before + CountEntries(found)
  {
    stats := before;
    match found {
      case Some(c) =>
        stats := stats[TotalKey := c[0]];
        stats := stats[RegularKey := c[1]];
        stats := stats[DirectoriesKey := c[2]];
        stats := stats[LinksKey := c[3]];
      case None =>
    }
  }

  /** Inserts size, speedup and run type of the summary line, when its pattern matched. */
  method InsertSummary(before: map<string, string>, found: Option<seq<string>>) returns (stats: map<string, string>)
    requires found.Some? ==> |found.value| == 3
    ensures stats == before + SummaryEntries(found)
  {
    stats := before;
    match found {
      case Some(c) =>
        stats := stats[SummaryKey := c[0]];
        stats := stats[SpeedupKey := c[1]];
        stats := stats[RunTypeKey := c[2]];
      case None =>
    }
  }
}
