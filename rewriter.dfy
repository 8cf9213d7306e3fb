/**
 * The rewrite of `BoxRemover.remove_boxes_from_content` as functions of the
 * stream bytes, and the quick detector of `_has_box_patterns`; what the
 * rewrite promises is proved here, the stateful methods that use them live
 * in module BoxRemoval.
 */
module Rewriter {
  import opened Wrappers
  import opened Patterns
  import opened Substitution

  /** The text after some patterns and the number of matches they removed. */
  datatype Pass = Pass(text: seq<byte>, removed: nat)

  ghost predicate NonEmptyPatterns(ps: seq<Pattern>) {
    forall k :: 0 <= k < |ps| ==> ps[k] != []
  }

  /** Apply each pattern in list order, each to the text the earlier ones
      already reduced, summing the `findall` counts. */
  function ApplyPatterns(ps: seq<Pattern>, s: seq<byte>): Pass
    requires NonEmptyPatterns(ps)
    decreases |ps|
  {
    if ps == [] then Pass(s, 0)
    else
      var rest := ApplyPatterns(ps[1..], Substitute(ps[0], s));
      Pass(rest.text, MatchCount(ps[0], s) + rest.removed)
  }

  lemma BoxPatternsNonEmpty()
    ensures NonEmptyPatterns(BoxPatterns)
  {
    forall k | 0 <= k < |BoxPatterns| ensures BoxPatterns[k] != [] {
      BoxPatternsWellFormed(k);
    }
  }

  /** The result of `remove_boxes_from_content`: the reduced text if its
      length changed, the original bytes otherwise. */
  function RemoveBoxes(content: seq<byte>): seq<byte> {
    BoxPatternsNonEmpty();
    var r := ApplyPatterns(BoxPatterns, content);
    if |r.text| != |content| then r.text else content
  }

  /** What `remove_boxes_from_content` adds to `boxes_removed`. */
  function BoxesRemoved(content: seq<byte>): nat {
    BoxPatternsNonEmpty();
    ApplyPatterns(BoxPatterns, content).removed
  }

  /** Applying patterns of at least four elements deletes at least four
      bytes per match, and leaves the text alone iff nothing matched. */
  lemma {:induction false} ApplyPatternsShrinks(ps: seq<Pattern>, s: seq<byte>)
    requires NonEmptyPatterns(ps)
    requires forall k :: 0 <= k < |ps| ==> |ps[k]| >= 4
    ensures |ApplyPatterns(ps, s).text| + 4 * ApplyPatterns(ps, s).removed <= |s|
    ensures ApplyPatterns(ps, s).removed == 0 <==> ApplyPatterns(ps, s).text == s
    decreases |ps|
  {
    if ps != [] {
      var p, t := ps[0], Substitute(ps[0], s);
      var n := MatchCount(p, s);
      SubstituteShrinks(p, s);
      AtLeastFourPerMatch(|p|, n);
      ApplyPatternsShrinks(ps[1..], t);
      assert ApplyPatterns(ps, s).removed == n + ApplyPatterns(ps[1..], t).removed;
    }
  }

  lemma AtLeastFourPerMatch(len: nat, n: nat)
    requires len >= 4
    ensures len * n >= 4 * n
  {
  }

  /** Applying patterns only deletes bytes. */
  lemma {:induction false} ApplyPatternsSubsequence(ps: seq<Pattern>, s: seq<byte>)
    requires NonEmptyPatterns(ps)
    ensures IsSubsequence(ApplyPatterns(ps, s).text, s)
    decreases |ps|
  {
    if ps == [] {
      SubsequenceRefl(s);
    } else {
      var t := Substitute(ps[0], s);
      SubstituteIsSubsequence(ps[0], s);
      ApplyPatternsSubsequence(ps[1..], t);
      SubsequenceTrans(ApplyPatterns(ps[1..], t).text, t, s);
    }
  }

  /** The contract of `remove_boxes_from_content`: the length test is a
      change test; the result is the input iff no pattern matched, and
      otherwise strictly shorter; the rewrite only deletes bytes. */
  lemma RemoveBoxesDeletes(content: seq<byte>)
    ensures RemoveBoxes(content) == ApplyPatterns(BoxPatterns, content).text
    ensures RemoveBoxes(content) == content <==> BoxesRemoved(content) == 0
    ensures |RemoveBoxes(content)| < |content| <==> BoxesRemoved(content) > 0
    ensures |RemoveBoxes(content)| + 4 * BoxesRemoved(content) <= |content|
    ensures IsSubsequence(RemoveBoxes(content), content)
  {
    BoxPatternsNonEmpty();
    forall k | 0 <= k < |BoxPatterns| ensures |BoxPatterns[k]| >= 4 {
      BoxPatternsWellFormed(k);
    }
    ApplyPatternsShrinks(BoxPatterns, content);
    ApplyPatternsSubsequence(BoxPatterns, content);
  }

  /** The rewrite, as a step on any input, only deletes bytes. */
  lemma RemoveBoxesAlwaysDeletes()
    ensures forall x :: IsSubsequence(RemoveBoxes(x), x) && |RemoveBoxes(x)| <= |x|
  {
    forall x ensures IsSubsequence(RemoveBoxes(x), x) && |RemoveBoxes(x)| <= |x| {
      RemoveBoxesDeletes(x);
    }
  }

  /** Does the basic box pattern `re\s+[SsWnfFbB]` (with the given `\s`)
      occur somewhere in c? */
  predicate BoxOccurs(space: CharClass, c: seq<byte>) {
    exists i | 0 <= i < |c| :: MatchAt(BasicBox(space), c, i).Some?
  }

  /** A match of pre + q ends with a match of q. */
  lemma {:induction false} SuffixMatch(pre: Pattern, q: Pattern, s: seq<byte>, i: nat)
    requires i <= |s| && MatchAt(pre + q, s, i).Some?
    ensures exists m :: i <= m <= |s| && MatchAt(q, s, m) == MatchAt(pre + q, s, i)
    decreases |pre|
  {
    if pre == [] {
      assert pre + q == q;
    } else {
      var p := pre + q;
      assert p[1..] == pre[1..] + q;
      match p[0]
      case Lit(x) => SuffixMatch(pre[1..], q, s, i + 1);
      case One(c) => SuffixMatch(pre[1..], q, s, i + 1);
      case Plus(c) => SuffixMatch(pre[1..], q, s, RunEnd(c, s, i));
    }
  }

  /** A match of any BOX_PATTERNS entry contains a match of the basic one. */
  lemma BoxMatchContainsBasic(k: nat, s: seq<byte>, i: nat)
    requires k < |BoxPatterns| && i <= |s| && MatchAt(BoxPatterns[k], s, i).Some?
    ensures BoxOccurs(StrSpace, s)
  {
    BoxPatternsEndInBasic(k);
    var pre: Pattern :| BoxPatterns[k] == pre + BasicBox(StrSpace);
    SuffixMatch(pre, BasicBox(StrSpace), s, i);
    var m :| i <= m <= |s| && MatchAt(BasicBox(StrSpace), s, m) == MatchAt(BoxPatterns[k], s, i);
    assert m < |s|;
  }

  /** If the patterns ps[..] (all ending in the basic pattern) removed
      anything, the basic pattern occurs in the text they started from. */
  lemma {:induction false} RemovalNeedsBasic(n: nat, s: seq<byte>)
    requires n <= |BoxPatterns|
    requires NonEmptyPatterns(BoxPatterns[n..])
    requires ApplyPatterns(BoxPatterns[n..], s).removed > 0
    ensures BoxOccurs(StrSpace, s)
    decreases |BoxPatterns| - n
  {
    var ps := BoxPatterns[n..];
    var p := ps[0];
    assert p == BoxPatterns[n];
    if MatchCount(p, s) > 0 {
      FindAllAreMatches(p, s, 0);
      var sp := FindAll(p, s, 0)[0];
      BoxMatchContainsBasic(n, s, sp.start);
    } else {
      SubstituteShrinks(p, s);
      assert ps[1..] == BoxPatterns[n + 1..];
      RemovalNeedsBasic(n + 1, s);
    }
  }

  /** Text without the basic pattern passes through the rewrite untouched. */
  lemma NoBasicNoChange(content: seq<byte>)
    requires !BoxOccurs(StrSpace, content)
    ensures RemoveBoxes(content) == content && BoxesRemoved(content) == 0
  {
    BoxPatternsNonEmpty();
    RemoveBoxesDeletes(content);
    if BoxesRemoved(content) > 0 {
      assert BoxPatterns[0..] == BoxPatterns;
      RemovalNeedsBasic(0, content);
    }
  }

  /** The three QUICK_PATTERNS, in their dictionary order. */
  datatype QuickPattern = Basic | Styled | Text

  const QuickPatterns: seq<QuickPattern> := [Basic, Styled, Text]

  /** `re.search(pattern, content, re.DOTALL)` for each quick pattern;
      all of them use the bytes-mode `\s`. */
  predicate QuickSearch(q: QuickPattern, c: seq<byte>) {
    match q
    // re\s+[SsWnfFbB]
    case Basic => BoxOccurs(AsciiSpace, c)
    // q.*?re\s+[SsWnfFbB].*?Q
    case Styled =>
      exists a, m | 0 <= a < m < |c| ::
        c[a] == 0x71 && MatchAt(BasicBox(AsciiSpace), c, m).Some? &&
        exists f | MatchAt(BasicBox(AsciiSpace), c, m).value <= f < |c| :: c[f] == 0x51
    // BT.*?re\s+[SsWnfFbB]
    case Text =>
      exists a, m | 0 <= a && a + 2 <= m < |c| ::
        c[a] == 0x42 && c[a + 1] == 0x54 && MatchAt(BasicBox(AsciiSpace), c, m).Some?
  }

  /** The styled and text quick patterns both contain the basic one, so
      some quick pattern is found iff the basic one is. */
  lemma QuickSearchIsBasic(c: seq<byte>)
    ensures (exists k :: 0 <= k < |QuickPatterns| && QuickSearch(QuickPatterns[k], c))
            <==> QuickSearch(Basic, c)
  {
    if QuickSearch(Styled, c) {
      var a, m :| 0 <= a < m < |c| && c[a] == 0x71 && MatchAt(BasicBox(AsciiSpace), c, m).Some? &&
        exists f | MatchAt(BasicBox(AsciiSpace), c, m).value <= f < |c| :: c[f] == 0x51;
      assert BoxOccurs(AsciiSpace, c);
    }
    if QuickSearch(Text, c) {
      var a, m :| 0 <= a && a + 2 <= m < |c| && c[a] == 0x42 && c[a + 1] == 0x54 && MatchAt(BasicBox(AsciiSpace), c, m).Some?;
      assert BoxOccurs(AsciiSpace, c);
    }
    if QuickSearch(Basic, c) {
      assert QuickSearch(QuickPatterns[0], c);
    }
  }

  /** The whitespace run of every str-mode `re\s+op` occurrence in c is
      ASCII; there the two flavours of `\s` agree. Bytes elsewhere in c
      (text strings, inline image data) may be anything. */
  ghost predicate BoxRunsAscii(c: seq<byte>) {
    forall i | 0 <= i < |c| && MatchAt(BasicBox(StrSpace), c, i).Some? ::
      forall k | i + 2 <= k < RunEnd(StrSpace, c, i + 2) :: IsAsciiSpace(c[k])
  }

  /** Detector soundness: a stream the rewrite would change passes the
      quick detector, provided the whitespace inside its `re…op`
      occurrences is ASCII. */
  lemma DetectorSound(c: seq<byte>)
    requires RemoveBoxes(c) != c
    requires BoxRunsAscii(c)
    ensures QuickSearch(Basic, c)
  {
    if !BoxOccurs(StrSpace, c) {
      NoBasicNoChange(c);
    } else {
      AsciiRunsAgree(c);
    }
  }

  /** Where the runs are ASCII, a str-mode `re\s+op` occurrence is a
      bytes-mode one too. */
  lemma AsciiRunsAgree(c: seq<byte>)
    requires BoxOccurs(StrSpace, c) && BoxRunsAscii(c)
    ensures BoxOccurs(AsciiSpace, c)
  {
    var i :| 0 <= i < |c| && MatchAt(BasicBox(StrSpace), c, i).Some?;
    assert AllIn(AsciiSpace, c, i + 2, RunEnd(StrSpace, c, i + 2));
    AsciiRunAgrees(c, i);
  }

  /** One occurrence whose run is ASCII. */
  lemma AsciiRunAgrees(c: seq<byte>, i: nat)
    requires i < |c| && MatchAt(BasicBox(StrSpace), c, i).Some?
    requires i + 2 <= |c| && AllIn(AsciiSpace, c, i + 2, RunEnd(StrSpace, c, i + 2))
    ensures MatchAt(BasicBox(AsciiSpace), c, i).Some?
  {
    BasicBoxAt(StrSpace, c, i);
    RunEndUnique(AsciiSpace, c, i + 2, RunEnd(StrSpace, c, i + 2));
    BasicBoxAt(AsciiSpace, c, i);
  }

  /** `re\s+op` at i, spelled out: "re", a maximal run of at least one
      space byte, then a painting operator. */
  lemma BasicBoxAt(space: CharClass, c: seq<byte>, i: nat)
    requires i <= |c|
    ensures MatchAt(BasicBox(space), c, i).Some? <==>
      i + 2 <= |c| && c[i] == 0x72 && c[i + 1] == 0x65 &&
      var j := RunEnd(space, c, i + 2); i + 2 < j < |c| && InClass(PaintOp, c[j])
  {
    var p := BasicBox(space);
    assert p[1..] == [Lit(0x65), Plus(space), One(PaintOp)];
    assert p[1..][1..] == [Plus(space), One(PaintOp)];
    assert p[1..][1..][1..] == [One(PaintOp)];
  }

  /** Any pattern longer than the text finds nothing in it. */
  lemma ShortTextNoMatch(p: Pattern, s: seq<byte>)
    requires p != [] && |s| < |p|
    ensures MatchCount(p, s) == 0 && Substitute(p, s) == s
  {
    FindAllSkips(p, s, 0, |s|);
    SubstituteShrinks(p, s);
  }

  lemma {:induction false} ShortTextUntouched(ps: seq<Pattern>, s: seq<byte>)
    requires NonEmptyPatterns(ps)
    requires forall k :: 0 <= k < |ps| ==> |s| < |ps[k]|
    ensures ApplyPatterns(ps, s) == Pass(s, 0)
    decreases |ps|
  {
    if ps != [] {
      ShortTextNoMatch(ps[0], s);
      ShortTextUntouched(ps[1..], s);
    }
  }

  /** After the first pattern, the rest need at least 13 bytes to match. */
  lemma RewriteOfShortRest(s: seq<byte>)
    requires |s| < 13
    ensures NonEmptyPatterns(BoxPatterns[1..])
    ensures ApplyPatterns(BoxPatterns[1..], s) == Pass(s, 0)
  {
    ShortTextUntouched(BoxPatterns[1..], s);
  }

  /** `re S` (with any single whitespace byte w, str-mode) is removed whole. */
  lemma BareBoxRemoved(w: byte)
    requires IsStrSpace(w)
    ensures RemoveBoxes([0x72, 0x65, w, 0x53]) == [] && BoxesRemoved([0x72, 0x65, w, 0x53]) == 1
  {
    var s: seq<byte> := [0x72, 0x65, w, 0x53];
    var p := BoxPatterns[0];
    assert RunEnd(StrSpace, s, 2) == 3;
    assert MatchAt(p, s, 0) == Some(4);
    assert FindAll(p, s, 0) == [Span(0, 4)];
    assert Splice(s, [Span(0, 4)], 0) == s[0..0] + s[4..];
    assert Substitute(p, s) == [];
    RewriteOfShortRest([]);
  }

  /** The rewrite is not idempotent: deleting `re S` from `rre Se S` joins
      the remaining bytes into a new `re S`. */
  lemma RewriteNotIdempotent()
    ensures var c: seq<byte> := [0x72, 0x72, 0x65, 0x20, 0x53, 0x65, 0x20, 0x53];
      RemoveBoxes(c) == [0x72, 0x65, 0x20, 0x53] && RemoveBoxes(RemoveBoxes(c)) != RemoveBoxes(c)
  {
    var c: seq<byte> := [0x72, 0x72, 0x65, 0x20, 0x53, 0x65, 0x20, 0x53];
    var p := BoxPatterns[0];
    assert RunEnd(StrSpace, c, 3) == 4;
    assert MatchAt(p, c, 1) == Some(5);
    assert MatchAt(p, c, 0) == None;
    assert FindAll(p, c, 0) == [Span(1, 5)] by {
      assert MatchAt(p, c, 5) == None && MatchAt(p, c, 6) == None && MatchAt(p, c, 7) == None;
      assert FindAll(p, c, 5) == [];
    }
    assert Splice(c, [Span(1, 5)], 0) == c[0..1] + c[5..];
    assert Substitute(p, c) == [0x72, 0x65, 0x20, 0x53];
    RewriteOfShortRest([0x72, 0x65, 0x20, 0x53]);
    BareBoxRemoved(0x20);
  }

  /** A box-only fill `0 0 100 200 re f` loses only its `re f`: the basic
      pattern runs first, and what is left of the operands is too short
      for the longer patterns, so the four numbers stay behind. */
  lemma BoxOnlyFillKeepsOperands()
    ensures var c: seq<byte> := [0x30, 0x20, 0x30, 0x20, 0x31, 0x30, 0x30, 0x20, 0x32, 0x30, 0x30, 0x20, 0x72, 0x65, 0x20, 0x66];
      RemoveBoxes(c) == c[..12] && BoxesRemoved(c) == 1
  {
    var c: seq<byte> := [0x30, 0x20, 0x30, 0x20, 0x31, 0x30, 0x30, 0x20, 0x32, 0x30, 0x30, 0x20, 0x72, 0x65, 0x20, 0x66];
    var p := BoxPatterns[0];
    assert RunEnd(StrSpace, c, 14) == 15;
    assert MatchAt(p, c, 12) == Some(16);
    assert FindAll(p, c, 0) == [Span(12, 16)] by {
      forall y | 0 <= y < 12 ensures MatchAt(p, c, y) == None {
        assert c[y] != 0x72;
      }
      FindAllSkips(p, c, 0, 12);
      assert FindAll(p, c, 16) == [];
    }
    assert Splice(c, [Span(12, 16)], 0) == c[0..12] + c[16..];
    assert Substitute(p, c) == c[..12];
    RewriteOfShortRest(c[..12]);
  }

  /** The quick detector misses a box whose whitespace is NO-BREAK SPACE,
      which the rewrite's str-mode `\s` accepts and bytes-mode `\s` does
      not: `re<NBSP>S` is rewritten, yet the basic quick pattern fails. */
  lemma DetectorMissesNonAsciiSpace()
    ensures var c: seq<byte> := [0x72, 0x65, 0xA0, 0x53];
      RemoveBoxes(c) != c && !QuickSearch(Basic, c)
  {
    var c: seq<byte> := [0x72, 0x65, 0xA0, 0x53];
    BareBoxRemoved(0xA0);
    assert RunEnd(AsciiSpace, c, 2) == 2;
    forall i | 0 <= i < |c| ensures MatchAt(BasicBox(AsciiSpace), c, i) == None {
    }
  }
}
