/**
 * The regular expressions of the statistics parser are sequences of literal
 * text and character-class repetitions (`c*`, `c+`).  Each repetition is
 * followed by something its class cannot continue into, so a backtracking
 * matcher can only ever take the longest run; `MatchAt` takes it directly.
 * `MatchSound` and `MatchComplete` show that this loses nothing: on a
 * guarded pattern `MatchAt` succeeds exactly when the text at the position
 * spells the pattern, and then it returns the words of that spelling.
 */
module Regex {
  import opened Wrappers
  import opened Text

  datatype Piece =
    | Lit(text: string)                 // literal text
    | Many(cls: CharClass, least: nat)  // `cls*` (least 0) or `cls+` (least 1)

  predicate FitsPiece(p: Piece, word: string) {
    match p
    case Lit(t) => word == t
    case Many(cls, least) => |word| >= least && AllIn(word, cls)
  }

  /** `w` holds one word per piece, each matching its piece. */
  predicate Fits(ps: seq<Piece>, w: seq<string>) {
    |w| == |ps| && forall k | 0 <= k < |ps| :: FitsPiece(ps[k], w[k])
  }

  function Concat(w: seq<string>): string {
    if w == [] then [] else w[0] + Concat(w[1..])
  }

  /** The classes in use are made of digits, letters, '.' and ','; none shares a character with whitespace. */
  predicate Disjoint(a: CharClass, b: CharClass) {
    (a == Space) != (b == Space)
  }

  lemma DisjointClasses(a: CharClass, b: CharClass, c: char)
    requires Disjoint(a, b) && InClass(c, a)
    ensures !InClass(c, b)
  {
  }

  /** Whatever text matches `ps` starts with a character outside `cls`. */
  predicate StopsBefore(cls: CharClass, ps: seq<Piece>)
    decreases |ps|
  {
    |ps| > 0 &&
    match ps[0]
    case Lit(t) => |t| > 0 && !InClass(t[0], cls)
    case Many(c2, least) => Disjoint(cls, c2) && (least >= 1 || StopsBefore(cls, ps[1..]))
  }

  /** Every repetition is followed by something that stops it. */
  predicate Guarded(ps: seq<Piece>)
    decreases |ps|
  {
    ps == [] ||
    ((ps[0].Many? ==> StopsBefore(ps[0].cls, ps[1..])) && Guarded(ps[1..]))
  }

  /** A piece in front of a guarded pattern keeps it guarded when the pattern stops it. */
  lemma GuardedCons(p: Piece, ps: seq<Piece>)
    requires p.Many? ==> StopsBefore(p.cls, ps)
    requires Guarded(ps)
    ensures Guarded([p] + ps)
  {
    assert ([p] + ps)[1..] == ps;
  }

  /** Where the piece `p`, matched at index `i` of `s`, ends: a repetition takes its longest run. */
  function Step(p: Piece, s: string, i: nat): (r: Option<nat>)
    requires i <= |s|
    ensures r.Some? ==> i <= r.value <= |s| && FitsPiece(p, s[i..r.value])
  {
    match p
    case Lit(t) => if OccursAt(s, t, i) then Some(i + |t|) else None
    case Many(cls, least) =>
      var j := Span(s, i, cls);
      SpanShape(s, i, cls);
      if j - i < least then None else Some(j)
  }

  /** Match `ps` at index `i` of `s`, piece by piece; the result holds the text each piece took. */
  function MatchAt(ps: seq<Piece>, s: string, i: nat): Option<seq<string>>
    requires i <= |s|
    decreases |ps|
  {
    if ps == [] then Some([])
    else
      match Step(ps[0], s, i)
      case None => None
      case Some(j) =>
        match MatchAt(ps[1..], s, j)
        case None => None
        case Some(w) => Some([s[i..j]] + w)
  }

  lemma ConcatCons(word: string, w: seq<string>)
    ensures Concat([word] + w) == word + Concat(w)
  {
    assert ([word] + w)[1..] == w;
  }

  lemma OccursCons(s: string, a: string, b: string, i: nat)
    requires OccursAt(s, a, i) && OccursAt(s, b, i + |a|)
    ensures OccursAt(s, a + b, i)
  {
    assert s[i..i + |a + b|] == s[i..i + |a|] + s[i + |a|..i + |a| + |b|];
  }

  lemma OccursSplit(s: string, a: string, b: string, i: nat)
    requires OccursAt(s, a + b, i)
    ensures OccursAt(s, a, i) && OccursAt(s, b, i + |a|)
  {
    assert s[i..i + |a|] == (a + b)[..|a|];
    assert s[i + |a|..i + |a| + |b|] == (a + b)[|a|..];
  }

  /** Whatever `MatchAt` returns is a spelling of the pattern found at `i`. */
  lemma {:induction false} MatchSound(ps: seq<Piece>, s: string, i: nat)
    requires i <= |s|
    ensures var r := MatchAt(ps, s, i);
      r.Some? ==> Fits(ps, r.value) && OccursAt(s, Concat(r.value), i)
    decreases |ps|
  {
    var r := MatchAt(ps, s, i);
    if ps != [] && r.Some? {
      var w := r.value;
      var j := Step(ps[0], s, i).value;
      MatchSound(ps[1..], s, j);
      assert w == [s[i..j]] + w[1..];
      ConcatCons(s[i..j], w[1..]);
      OccursCons(s, s[i..j], Concat(w[1..]), i);
      forall k | 0 <= k < |ps| ensures FitsPiece(ps[k], w[k]) {
        if k > 0 {
          assert ps[k] == ps[1..][k - 1] && w[k] == w[1..][k - 1];
        }
      }
    }
  }

  /** The first character after the end of a guarded repetition. */
  lemma {:induction false} FirstCharOutside(cls: CharClass, ps: seq<Piece>, w: seq<string>, s: string, j: nat)
    requires StopsBefore(cls, ps) && Fits(ps, w) && OccursAt(s, Concat(w), j)
    ensures j < |s| && !InClass(s[j], cls)
    decreases |ps|
  {
    ConcatCons(w[0], w[1..]);
    assert w == [w[0]] + w[1..];
    OccursSplit(s, w[0], Concat(w[1..]), j);
    assert FitsPiece(ps[0], w[0]);
    if |w[0]| > 0 {
      assert s[j] == w[0][0];
      if ps[0].Many? {
        DisjointClasses(ps[0].cls, cls, s[j]);
      }
    } else {
      assert Fits(ps[1..], w[1..]) by {
        forall k | 0 <= k < |ps| - 1 ensures FitsPiece(ps[1..][k], w[1..][k]) {
          assert FitsPiece(ps[k + 1], w[k + 1]);
        }
      }
      FirstCharOutside(cls, ps[1..], w[1..], s, j);
    }
  }

  /** On a guarded pattern, any spelling found at `i` is the one `MatchAt` returns. */
  lemma {:induction false} MatchComplete(ps: seq<Piece>, w: seq<string>, s: string, i: nat)
    requires Guarded(ps) && Fits(ps, w) && OccursAt(s, Concat(w), i)
    ensures MatchAt(ps, s, i) == Some(w)
    decreases |ps|
  {
    if ps != [] {
      var word := w[0];
      ConcatCons(word, w[1..]);
      assert w == [word] + w[1..];
      OccursSplit(s, word, Concat(w[1..]), i);
      assert FitsPiece(ps[0], word);
      assert Fits(ps[1..], w[1..]) by {
        forall k | 0 <= k < |ps| - 1 ensures FitsPiece(ps[1..][k], w[1..][k]) {
          assert FitsPiece(ps[k + 1], w[k + 1]);
        }
      }
      var j := i + |word|;
      assert s[i..j] == word;
      if ps[0].Many? {
        FirstCharOutside(ps[0].cls, ps[1..], w[1..], s, j);
        SpanIs(s, i, j, ps[0].cls);
      }
      assert Step(ps[0], s, i) == Some(j);
      MatchComplete(ps[1..], w[1..], s, j);
    }
  }

  /** A match of a pattern made of two halves is a match of the first half followed by one of the second. */
  lemma {:induction false} MatchSplit(ps1: seq<Piece>, ps2: seq<Piece>, s: string, i: nat)
    requires i <= |s|
    ensures MatchAt(ps1 + ps2, s, i).Some? ==>
      var w := MatchAt(ps1 + ps2, s, i).value;
      && |ps1| <= |w|
      && MatchAt(ps1, s, i) == Some(w[..|ps1|])
      && i + |Concat(w[..|ps1|])| <= |s|
      && MatchAt(ps2, s, i + |Concat(w[..|ps1|])|) == Some(w[|ps1|..])
    decreases |ps1|
  {
    if MatchAt(ps1 + ps2, s, i).Some? {
      var w := MatchAt(ps1 + ps2, s, i).value;
      MatchSound(ps1 + ps2, s, i);
      if ps1 == [] {
        assert ps1 + ps2 == ps2;
        assert Concat(w[..0]) == [];
      } else {
        SplitStep(ps1, ps2, s, i);
      }
    }
  }

  lemma {:induction false} SplitStep(ps1: seq<Piece>, ps2: seq<Piece>, s: string, i: nat)
    requires i <= |s| && ps1 != [] && MatchAt(ps1 + ps2, s, i).Some?
    requires |MatchAt(ps1 + ps2, s, i).value| == |ps1| + |ps2|
    ensures var w := MatchAt(ps1 + ps2, s, i).value;
      && MatchAt(ps1, s, i) == Some(w[..|ps1|])
      && i + |Concat(w[..|ps1|])| <= |s|
      && MatchAt(ps2, s, i + |Concat(w[..|ps1|])|) == Some(w[|ps1|..])
    decreases |ps1|, 0
  {
    var ps := ps1 + ps2;
    var w := MatchAt(ps, s, i).value;
    assert ps[0] == ps1[0];
    assert ps[1..] == ps1[1..] + ps2;
    var j := Step(ps1[0], s, i).value;
    var rest := MatchAt(ps[1..], s, j).value;
    assert w == [s[i..j]] + rest;
    MatchSplit(ps1[1..], ps2, s, j);
    var a := rest[..|ps1| - 1];
    assert w[..|ps1|] == [s[i..j]] + a;
    assert w[|ps1|..] == rest[|ps1| - 1..];
    ConcatCons(s[i..j], a);
  }

  /** Where a match of `head + tail` succeeds, `head` matches first and `tail` matches where it ends. */
  lemma AfterHead(head: seq<Piece>, tail: seq<Piece>, s: string, i: nat)
    requires i <= |s|
    ensures MatchAt(head + tail, s, i).Some? ==>
      && MatchAt(head, s, i).Some?
      && i + |Concat(MatchAt(head, s, i).value)| <= |s|
      && MatchAt(tail, s, i + |Concat(MatchAt(head, s, i).value)|).Some?
  {
    MatchSplit(head, tail, s, i);
  }

  /**
   * Of two alternatives after a common head, the one that must start with a
   * character of `cls` fails wherever the other, which cannot, succeeds.
   */
  lemma ExclusiveTails(head: seq<Piece>, taken: seq<Piece>, other: seq<Piece>, cls: CharClass, s: string, i: nat)
    requires i <= |s| && MatchAt(head + taken, s, i).Some?
    requires StopsBefore(cls, taken)
    requires |other| > 0 && other[0].Lit? && |other[0].text| > 0 && InClass(other[0].text[0], cls)
    ensures MatchAt(head + other, s, i).None?
  {
    AfterHead(head, taken, s, i);
    AfterHead(head, other, s, i);
    var p := i + |Concat(MatchAt(head, s, i).value)|;
    var w := MatchAt(taken, s, p).value;
    MatchSound(taken, s, p);
    FirstCharOutside(cls, taken, w, s, p);
    assert !OccursAt(s, other[0].text, p);
    assert MatchAt(other, s, p).None?;
  }
}
