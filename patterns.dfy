/**
 * The regular expressions of BoxRemover (BOX_PATTERNS and the "basic"
 * QUICK_PATTERNS entry) as fixed chains of literal bytes and character
 * classes, with a deterministic greedy matcher.
 *
 * Content streams are decoded as Latin-1, a bijection between bytes and the
 * code points 0..255, so the rewriter is modelled directly on bytes.
 */
module Patterns {
  import opened Wrappers

  newtype byte = b: int | 0 <= b < 256

  /** The character classes that occur in the patterns. */
  datatype CharClass =
    | StrSpace    // `\s` of a str pattern over Latin-1 text
    | AsciiSpace  // `\s` of a bytes pattern
    | Numeral     // `[0-9.]`
    | PaintOp     // `[SsWnfFbB]`

  /** Python's str-mode `\s` restricted to Latin-1: TAB..CR, the four
      information separators 0x1C..0x1F, SPACE, NEL and NO-BREAK SPACE. */
  predicate IsStrSpace(b: byte) {
    (0x09 <= b <= 0x0D) || (0x1C <= b <= 0x20) || b == 0x85 || b == 0xA0
  }

  /** Python's bytes-mode `\s`: TAB..CR and SPACE. */
  predicate IsAsciiSpace(b: byte) {
    (0x09 <= b <= 0x0D) || b == 0x20
  }

  predicate IsNumeral(b: byte) {
    (0x30 <= b <= 0x39) || b == 0x2E
  }

  /** S s W n f F b B */
  predicate IsPaintOp(b: byte) {
    b == 0x53 || b == 0x73 || b == 0x57 || b == 0x6E ||
    b == 0x66 || b == 0x46 || b == 0x62 || b == 0x42
  }

  predicate InClass(c: CharClass, b: byte) {
    match c
    case StrSpace => IsStrSpace(b)
    case AsciiSpace => IsAsciiSpace(b)
    case Numeral => IsNumeral(b)
    case PaintOp => IsPaintOp(b)
  }

  /** One regex element: a literal byte, one byte of a class, or a run of
      one or more bytes of a class (`c+`). */
  datatype Elem = Lit(b: byte) | One(c: CharClass) | Plus(c: CharClass)

  type Pattern = seq<Elem>

  /** Can a match of `e` begin with byte `b`? */
  predicate CanStart(e: Elem, b: byte) {
    match e
    case Lit(x) => b == x
    case One(c) => InClass(c, b)
    case Plus(c) => InClass(c, b)
  }

  /** Every run is followed by an element that cannot begin with a byte of
      the run's class; so a run must be consumed in full, and the greedy
      match needs no backtracking. */
  ghost predicate GreedySafe(p: Pattern) {
    forall k :: 0 <= k < |p| && p[k].Plus? ==>
      k + 1 < |p| && forall b: byte :: InClass(p[k].c, b) ==> !CanStart(p[k + 1], b)
  }

  /** True iff every byte of s[i..j] belongs to class c. */
  ghost predicate AllIn(c: CharClass, s: seq<byte>, i: nat, j: nat)
    requires i <= j <= |s|
  {
    forall m :: i <= m < j ==> InClass(c, s[m])
  }

  /** End of the maximal run of class c that starts at i. */
  function RunEnd(c: CharClass, s: seq<byte>, i: nat): (j: nat)
    requires i <= |s|
    ensures i <= j <= |s|
    ensures AllIn(c, s, i, j)
    ensures j == |s| || !InClass(c, s[j])
    decreases |s| - i
  {
    if i < |s| && InClass(c, s[i]) then RunEnd(c, s, i + 1) else i
  }

  /** A run of c from i that is followed by a byte outside c (or by the end)
      is the maximal run. */
  lemma {:induction false} RunEndUnique(c: CharClass, s: seq<byte>, i: nat, k: nat)
    requires i <= k <= |s| && AllIn(c, s, i, k)
    requires k == |s| || !InClass(c, s[k])
    ensures RunEnd(c, s, i) == k
    decreases k - i
  {
    if i < k {
      RunEndUnique(c, s, i + 1, k);
    }
  }

  /** The deterministic matcher: the end of the match of p anchored at i,
      every run taken greedily. Every element consumes at least one byte. */
  function MatchAt(p: Pattern, s: seq<byte>, i: nat): (r: Option<nat>)
    requires i <= |s|
    ensures r.Some? ==> i + |p| <= r.value <= |s|
    decreases |p|
  {
    if p == [] then Some(i)
    else match p[0]
      case Lit(x) =>
        if i < |s| && s[i] == x then MatchAt(p[1..], s, i + 1) else None
      case One(c) =>
        if i < |s| && InClass(c, s[i]) then MatchAt(p[1..], s, i + 1) else None
      case Plus(c) =>
        var j := RunEnd(c, s, i);
        if i < j then MatchAt(p[1..], s, j) else None
  }

  /** The backtracking semantics of a regular expression: p matches exactly
      s[i..j] by SOME choice of run lengths. */
  ghost predicate Matches(p: Pattern, s: seq<byte>, i: nat, j: nat)
    decreases |p|
  {
    i <= j <= |s| &&
    if p == [] then i == j
    else match p[0]
      case Lit(x) => i < j && s[i] == x && Matches(p[1..], s, i + 1, j)
      case One(c) => i < j && InClass(c, s[i]) && Matches(p[1..], s, i + 1, j)
      case Plus(c) =>
        exists k :: i < k <= j && AllIn(c, s, i, k) && Matches(p[1..], s, k, j)
  }

  lemma GreedySafeTail(p: Pattern)
    requires p != [] && GreedySafe(p)
    ensures GreedySafe(p[1..])
  {
    forall k | 0 <= k < |p[1..]| && p[1..][k].Plus?
      ensures k + 1 < |p[1..]| && forall b: byte :: InClass(p[1..][k].c, b) ==> !CanStart(p[1..][k + 1], b)
    {
      assert p[1..][k] == p[k + 1];
    }
  }

  /** A match of a nonempty pattern cannot start at a byte the pattern's
      first element rejects. */
  lemma MatchesStart(p: Pattern, s: seq<byte>, i: nat, j: nat)
    requires p != [] && Matches(p, s, i, j)
    ensures i < |s| && CanStart(p[0], s[i])
  {
  }

  /** The greedy matcher finds exactly the matches of the regex semantics;
      in particular a match anchored at i is unique. */
  lemma {:induction false} MatchAtIsRegexMatch(p: Pattern, s: seq<byte>, i: nat, j: nat)
    requires GreedySafe(p) && i <= |s|
    ensures MatchAt(p, s, i) == Some(j) <==> Matches(p, s, i, j)
    decreases |p|
  {
    if p != [] {
      GreedySafeTail(p);
      match p[0]
      case Lit(x) =>
        if i < |s| && s[i] == x { MatchAtIsRegexMatch(p[1..], s, i + 1, j); }
      case One(c) =>
        if i < |s| && InClass(c, s[i]) { MatchAtIsRegexMatch(p[1..], s, i + 1, j); }
      case Plus(c) =>
        var e := RunEnd(c, s, i);
        if i < e {
          MatchAtIsRegexMatch(p[1..], s, e, j);
          if Matches(p, s, i, j) {
            var k :| i < k <= j && AllIn(c, s, i, k) && Matches(p[1..], s, k, j);
            assert p[1..] != [] && p[1..][0] == p[1];
            MatchesStart(p[1..], s, k, j);
            // s[k] starts the next element, so it is outside c: the run ends at k
            RunEndUnique(c, s, i, k);
          }
          if MatchAt(p, s, i) == Some(j) {
            assert Matches(p[1..], s, e, j);
          }
        } else {
          // no run of c starts at i
          forall k | i < k <= |s| ensures !AllIn(c, s, i, k) {
            assert !InClass(c, s[i]);
          }
        }
    }
  }

  /** `re\s+[SsWnfFbB]` for the given flavour of `\s`. */
  function BasicBox(space: CharClass): Pattern {
    [Lit(0x72), Lit(0x65), Plus(space), One(PaintOp)]
  }

  /** `[0-9.]+\s+` */
  const Number: Pattern := [Plus(Numeral), Plus(StrSpace)]

  /** `re\s+[SsWnfFbB]` */
  const PlainBox: Pattern := BasicBox(StrSpace)

  /** `[0-9.]+\s+[0-9.]+\s+[0-9.]+\s+RG\s+re\s+[SsWnfFbB]` */
  const StrokeColourBox: Pattern :=
    Number + Number + Number + [Lit(0x52), Lit(0x47), Plus(StrSpace)] + BasicBox(StrSpace)

  /** `[0-9.]+\s+[0-9.]+\s+[0-9.]+\s+rg\s+re\s+[SsWnfFbB]` */
  const FillColourBox: Pattern :=
    Number + Number + Number + [Lit(0x72), Lit(0x67), Plus(StrSpace)] + BasicBox(StrSpace)

  /** `q\s+` then four numbers, then `re\s+[SsWnfFbB]` */
  const SavedBox: Pattern :=
    [Lit(0x71), Plus(StrSpace)] + Number + Number + Number + Number + BasicBox(StrSpace)

  /** six numbers, `cm\s+re\s+[SsWnfFbB]` */
  const TransformedBox: Pattern :=
    Number + Number + Number + Number + Number + Number
      + [Lit(0x63), Lit(0x6D), Plus(StrSpace)] + BasicBox(StrSpace)

  /** `q\s+GS\s+` then four numbers, then `re\s+[SsWnfFbB]` */
  const GraphicsStateBox: Pattern :=
    [Lit(0x71), Plus(StrSpace), Lit(0x47), Lit(0x53), Plus(StrSpace)]
      + Number + Number + Number + Number + BasicBox(StrSpace)

  /** The BOX_PATTERNS list, in order. */
  const BoxPatterns: seq<Pattern> :=
    [PlainBox, StrokeColourBox, FillColourBox, SavedBox, TransformedBox, GraphicsStateBox]

  /** Every BOX_PATTERNS entry is a prefix followed by the basic pattern. */
  lemma BoxPatternsEndInBasic(k: nat)
    requires k < |BoxPatterns|
    ensures exists pre: Pattern :: BoxPatterns[k] == pre + BasicBox(StrSpace)
  {
    var p := BoxPatterns[k];
    var n := |p| - 4;
    assert p == p[..n] + BasicBox(StrSpace);
  }

  lemma PlainBoxSafe()
    ensures |PlainBox| >= 4 && GreedySafe(PlainBox)
  {
  }

  lemma StrokeColourBoxSafe()
    ensures |StrokeColourBox| >= 4 && GreedySafe(StrokeColourBox)
  {
  }

  lemma FillColourBoxSafe()
    ensures |FillColourBox| >= 4 && GreedySafe(FillColourBox)
  {
  }

  lemma SavedBoxSafe()
    ensures |SavedBox| >= 4 && GreedySafe(SavedBox)
  {
  }

  lemma TransformedBoxSafe()
    ensures |TransformedBox| >= 4 && GreedySafe(TransformedBox)
  {
  }

  lemma GraphicsStateBoxSafe()
    ensures |GraphicsStateBox| >= 4 && GreedySafe(GraphicsStateBox)
  {
  }

  /** Every BOX_PATTERNS entry matches at least four bytes and needs no
      backtracking. */
  lemma BoxPatternsWellFormed(k: nat)
    requires k < |BoxPatterns|
    ensures |BoxPatterns[k]| >= 4
    ensures GreedySafe(BoxPatterns[k])
  {
    if k == 0 { PlainBoxSafe(); }
    else if k == 1 { StrokeColourBoxSafe(); }
    else if k == 2 { FillColourBoxSafe(); }
    else if k == 3 { SavedBoxSafe(); }
    else if k == 4 { TransformedBoxSafe(); }
    else { GraphicsStateBoxSafe(); }
  }
}
