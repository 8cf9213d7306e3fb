/**
 * `pattern.findall(text)` and `pattern.sub("", text)` for one pattern: the
 * leftmost non-overlapping matches, scanned from the start of the text, and
 * the text with exactly those spans deleted.
 */
module Substitution {
  import opened Wrappers
  import opened Patterns

  /** A matched span s[start..end]. */
  datatype Span = Span(start: nat, end: nat)

  /** The scan of `findall`/`sub` from position i: at each position try to
      match; on success record the span and resume at its end, otherwise
      move one byte on. */
  function FindAll(p: Pattern, s: seq<byte>, i: nat): seq<Span>
    requires p != [] && i <= |s|
    decreases |s| - i
  {
    if i == |s| then []
    else match MatchAt(p, s, i)
      case Some(j) => [Span(i, j)] + FindAll(p, s, j)
      case None => FindAll(p, s, i + 1)
  }

  /** Spans lie in order inside s[i..], none overlapping the next. */
  ghost predicate Ordered(spans: seq<Span>, i: nat, n: nat) {
    if spans == [] then i <= n
    else i <= spans[0].start <= spans[0].end <= n && Ordered(spans[1..], spans[0].end, n)
  }

  /** Position x lies inside one of the spans. */
  ghost predicate Covered(spans: seq<Span>, x: nat) {
    exists k :: 0 <= k < |spans| && spans[k].start <= x < spans[k].end
  }

  /** What `findall` promises: the spans are ordered matches of p, and no
      match of p starts at a position of s[i..] that no span covers. */
  ghost predicate LeftmostMatches(p: Pattern, s: seq<byte>, i: nat, spans: seq<Span>)
    requires i <= |s|
  {
    && Ordered(spans, i, |s|)
    && (forall k :: 0 <= k < |spans| ==> spans[k].start <= |s| && MatchAt(p, s, spans[k].start) == Some(spans[k].end))
    && (forall x: nat :: i <= x < |s| && !Covered(spans, x) ==> MatchAt(p, s, x) == None)
  }

  /** Total number of bytes the spans cover. */
  function CoveredLength(spans: seq<Span>): nat {
    if spans == [] then 0
    else (if spans[0].start <= spans[0].end then spans[0].end - spans[0].start else 0)
         + CoveredLength(spans[1..])
  }

  /** s[i..] with every span cut out. */
  function Splice(s: seq<byte>, spans: seq<Span>, i: nat): seq<byte>
    requires Ordered(spans, i, |s|)
    decreases |spans|
  {
    if spans == [] then s[i..]
    else s[i..spans[0].start] + Splice(s, spans[1..], spans[0].end)
  }

  /** `pattern.sub("", s)`: the text with every leftmost match removed. */
  function Substitute(p: Pattern, s: seq<byte>): seq<byte>
    requires p != []
  {
    FindAllOrdered(p, s, 0);
    Splice(s, FindAll(p, s, 0), 0)
  }

  /** `len(pattern.findall(s))` */
  function MatchCount(p: Pattern, s: seq<byte>): nat
    requires p != []
  {
    |FindAll(p, s, 0)|
  }

  lemma {:induction false} FindAllOrdered(p: Pattern, s: seq<byte>, i: nat)
    requires p != [] && i <= |s|
    ensures Ordered(FindAll(p, s, i), i, |s|)
    decreases |s| - i
  {
    if i < |s| {
      match MatchAt(p, s, i)
      case Some(j) => FindAllOrdered(p, s, j);
      case None => FindAllOrdered(p, s, i + 1);
    }
  }

  /** The positions before the first span carry no match: `FindAll` from
      position i is `FindAll` from the first match at or after i. */
  lemma {:induction false} FindAllSkips(p: Pattern, s: seq<byte>, i: nat, x: nat)
    requires p != [] && i <= x <= |s|
    requires forall y :: i <= y < x ==> MatchAt(p, s, y) == None
    ensures FindAll(p, s, i) == FindAll(p, s, x)
    decreases x - i
  {
    if i < x {
      FindAllSkips(p, s, i + 1, x);
    }
  }

  lemma CoveredCons(sp: Span, rest: seq<Span>, x: nat)
    ensures Covered([sp] + rest, x) <==> (sp.start <= x < sp.end || Covered(rest, x))
  {
    var all := [sp] + rest;
    if Covered(rest, x) {
      var k :| 0 <= k < |rest| && rest[k].start <= x < rest[k].end;
      assert all[k + 1] == rest[k];
    }
    if Covered(all, x) {
      var k :| 0 <= k < |all| && all[k].start <= x < all[k].end;
      if k > 0 { assert rest[k - 1] == all[k]; }
    }
    if sp.start <= x < sp.end { assert all[0] == sp; }
  }

  /** Ordered spans from j cover nothing before j. */
  lemma {:induction false} OrderedCoversNothingBefore(spans: seq<Span>, j: nat, n: nat, x: nat)
    requires Ordered(spans, j, n) && x < j
    ensures !Covered(spans, x)
    decreases |spans|
  {
    if spans != [] {
      OrderedCoversNothingBefore(spans[1..], spans[0].end, n, x);
      CoveredCons(spans[0], spans[1..], x);
      assert spans == [spans[0]] + spans[1..];
    }
  }

  /** Every span `FindAll` reports is a match of p at its start. */
  lemma {:induction false} FindAllAreMatches(p: Pattern, s: seq<byte>, i: nat)
    requires p != [] && i <= |s|
    ensures forall k :: 0 <= k < |FindAll(p, s, i)| ==>
      FindAll(p, s, i)[k].start <= |s| && MatchAt(p, s, FindAll(p, s, i)[k].start) == Some(FindAll(p, s, i)[k].end)
    decreases |s| - i
  {
    if i < |s| {
      match MatchAt(p, s, i)
      case Some(j) =>
        FindAllAreMatches(p, s, j);
        var rest := FindAll(p, s, j);
        var spans := [Span(i, j)] + rest;
        assert FindAll(p, s, i) == spans;
        forall k | 0 <= k < |spans|
          ensures spans[k].start <= |s| && MatchAt(p, s, spans[k].start) == Some(spans[k].end)
        {
          if k > 0 { assert spans[k] == rest[k - 1]; }
        }
      case None =>
        FindAllAreMatches(p, s, i + 1);
    }
  }

  /** No match of p starts at a position `FindAll` leaves uncovered. */
  lemma {:induction false} FindAllMissesNothing(p: Pattern, s: seq<byte>, i: nat)
    requires p != [] && i <= |s|
    ensures forall x: nat :: i <= x < |s| && !Covered(FindAll(p, s, i), x) ==> MatchAt(p, s, x) == None
    decreases |s| - i
  {
    if i < |s| {
      match MatchAt(p, s, i)
      case Some(j) =>
        FindAllMissesNothing(p, s, j);
        var rest := FindAll(p, s, j);
        assert FindAll(p, s, i) == [Span(i, j)] + rest;
        forall x: nat | i <= x < |s| && !Covered([Span(i, j)] + rest, x)
          ensures MatchAt(p, s, x) == None
        {
          CoveredCons(Span(i, j), rest, x);
        }
      case None =>
        FindAllMissesNothing(p, s, i + 1);
        forall x: nat | i <= x < |s| && !Covered(FindAll(p, s, i), x)
          ensures MatchAt(p, s, x) == None
        {
        }
    }
  }

  /** `FindAll` yields exactly the leftmost non-overlapping matches. */
  lemma FindAllIsLeftmost(p: Pattern, s: seq<byte>, i: nat)
    requires p != [] && i <= |s|
    ensures LeftmostMatches(p, s, i, FindAll(p, s, i))
  {
    FindAllOrdered(p, s, i);
    FindAllAreMatches(p, s, i);
    FindAllMissesNothing(p, s, i);
  }

  /** ... and they are the only span list with that property. */
  lemma {:induction false} LeftmostMatchesUnique(p: Pattern, s: seq<byte>, i: nat, spans: seq<Span>)
    requires p != [] && i <= |s|
    requires LeftmostMatches(p, s, i, spans)
    ensures spans == FindAll(p, s, i)
    decreases |s| - i
  {
    if spans == [] {
      forall y: nat | i <= y < |s| ensures MatchAt(p, s, y) == None {
        assert !Covered(spans, y);
      }
      FindAllSkips(p, s, i, |s|);
    } else {
      var a, b := spans[0].start, spans[0].end;
      var rest := spans[1..];
      assert spans == [spans[0]] + rest;
      assert MatchAt(p, s, a) == Some(b);
      forall y: nat | i <= y < a ensures MatchAt(p, s, y) == None {
        OrderedCoversNothingBefore(rest, b, |s|, y);
        CoveredCons(spans[0], rest, y);
      }
      FindAllSkips(p, s, i, a);
      assert FindAll(p, s, a) == [Span(a, b)] + FindAll(p, s, b);
      forall k | 0 <= k < |rest|
        ensures rest[k].start <= |s| && MatchAt(p, s, rest[k].start) == Some(rest[k].end)
      {
        assert rest[k] == spans[k + 1];
      }
      forall x: nat | b <= x < |s| && !Covered(rest, x) ensures MatchAt(p, s, x) == None {
        CoveredCons(spans[0], rest, x);
      }
      LeftmostMatchesUnique(p, s, b, rest);
    }
  }

  /** `Splice` removes exactly the covered bytes. */
  lemma {:induction false} SpliceLength(s: seq<byte>, spans: seq<Span>, i: nat)
    requires Ordered(spans, i, |s|)
    ensures |Splice(s, spans, i)| == |s| - i - CoveredLength(spans)
    decreases |spans|
  {
    if spans != [] {
      SpliceLength(s, spans[1..], spans[0].end);
    }
  }

  /** The positions i, i+1, ..., n-1 */
  function Range(i: nat, n: nat): (r: seq<nat>)
    requires i <= n
    ensures |r| == n - i
    ensures forall k :: 0 <= k < |r| ==> r[k] == i + k
    decreases n - i
  {
    if i == n then [] else [i] + Range(i + 1, n)
  }

  /** The uncovered positions of s[i..n], in ascending order. */
  function KeptPositions(spans: seq<Span>, i: nat, n: nat): seq<nat>
    requires Ordered(spans, i, n)
    decreases |spans|
  {
    if spans == [] then Range(i, n)
    else Range(i, spans[0].start) + KeptPositions(spans[1..], spans[0].end, n)
  }

  /** The bytes of s at the positions idx. */
  function Pick(s: seq<byte>, idx: seq<nat>): (r: seq<byte>)
    requires forall k :: 0 <= k < |idx| ==> idx[k] < |s|
    ensures |r| == |idx|
    ensures forall k :: 0 <= k < |idx| ==> r[k] == s[idx[k]]
  {
    seq(|idx|, k requires 0 <= k < |idx| => s[idx[k]])
  }

  ghost predicate StrictlyIncreasing(idx: seq<nat>) {
    forall k, l :: 0 <= k < l < |idx| ==> idx[k] < idx[l]
  }

  /** idx lists, in ascending order, the positions of b that hold the
      bytes of a. */
  ghost predicate Embeds(a: seq<byte>, b: seq<byte>, idx: seq<nat>) {
    && |idx| == |a|
    && StrictlyIncreasing(idx)
    && forall k :: 0 <= k < |idx| ==> idx[k] < |b| && a[k] == b[idx[k]]
  }

  /** a is a subsequence of b: b with some bytes deleted, order kept. */
  ghost predicate IsSubsequence(a: seq<byte>, b: seq<byte>) {
    exists idx: seq<nat> :: Embeds(a, b, idx)
  }

  lemma {:induction false} KeptPositionsFacts(spans: seq<Span>, i: nat, n: nat)
    requires Ordered(spans, i, n)
    ensures StrictlyIncreasing(KeptPositions(spans, i, n))
    ensures forall x: nat :: x in KeptPositions(spans, i, n) <==> i <= x < n && !Covered(spans, x)
    decreases |spans|
  {
    if spans == [] {
      var r := Range(i, n);
      forall x: nat | i <= x < n ensures x in r {
        assert r[x - i] == x;
      }
    } else {
      var a, b := spans[0].start, spans[0].end;
      var rest := spans[1..];
      KeptPositionsFacts(rest, b, n);
      var left, right := Range(i, a), KeptPositions(rest, b, n);
      assert KeptPositions(spans, i, n) == left + right;
      forall x | x in right ensures b <= x { }
      assert spans == [spans[0]] + rest;
      forall k, l | 0 <= k < l < |left + right| ensures (left + right)[k] < (left + right)[l] {
        if l >= |left| && k < |left| {
          assert (left + right)[l] in right;
        }
      }
      forall x: nat
        ensures x in left + right <==> i <= x < n && !Covered(spans, x)
      {
        CoveredCons(spans[0], rest, x);
        if x < b { OrderedCoversNothingBefore(rest, b, n, x); }
        if i <= x < a { assert left[x - i] == x; }
      }
    }
  }

  /** The spliced text is s read at the uncovered positions. */
  lemma {:induction false} SpliceKeepsUncovered(s: seq<byte>, spans: seq<Span>, i: nat)
    requires Ordered(spans, i, |s|)
    ensures forall k :: 0 <= k < |KeptPositions(spans, i, |s|)| ==> KeptPositions(spans, i, |s|)[k] < |s|
    ensures Splice(s, spans, i) == Pick(s, KeptPositions(spans, i, |s|))
    decreases |spans|
  {
    KeptBelow(spans, i, |s|);
    if spans == [] {
      PickRange(s, i, |s|);
    } else {
      var a, b := spans[0].start, spans[0].end;
      SpliceKeepsUncovered(s, spans[1..], b);
      PickRange(s, i, a);
      PickConcat(s, Range(i, a), KeptPositions(spans[1..], b, |s|));
    }
  }

  /** Every kept position of s[i..n] is below n. */
  lemma KeptBelow(spans: seq<Span>, i: nat, n: nat)
    requires Ordered(spans, i, n)
    ensures forall k :: 0 <= k < |KeptPositions(spans, i, n)| ==> KeptPositions(spans, i, n)[k] < n
  {
    KeptPositionsFacts(spans, i, n);
    var kept := KeptPositions(spans, i, n);
    forall k | 0 <= k < |kept| ensures kept[k] < n {
      assert kept[k] in kept;
    }
  }

  lemma PickRange(s: seq<byte>, i: nat, a: nat)
    requires i <= a <= |s|
    ensures s[i..a] == Pick(s, Range(i, a))
  {
  }

  lemma PickConcat(s: seq<byte>, l: seq<nat>, r: seq<nat>)
    requires forall k :: 0 <= k < |l| ==> l[k] < |s|
    requires forall k :: 0 <= k < |r| ==> r[k] < |s|
    ensures Pick(s, l + r) == Pick(s, l) + Pick(s, r)
  {
    assert forall k :: 0 <= k < |l + r| ==> (l + r)[k] < |s|;
  }

  /** Deleting the matches keeps every other byte of s, in order. */
  lemma SubstituteKeepsUnmatched(p: Pattern, s: seq<byte>)
    requires p != []
    ensures forall k :: 0 <= k < |KeptPositionsOf(p, s)| ==> KeptPositionsOf(p, s)[k] < |s|
    ensures Substitute(p, s) == Pick(s, KeptPositionsOf(p, s))
    ensures StrictlyIncreasing(KeptPositionsOf(p, s))
    ensures forall x: nat :: x in KeptPositionsOf(p, s) <==> x < |s| && !Covered(FindAll(p, s, 0), x)
  {
    FindAllOrdered(p, s, 0);
    SpliceKeepsUncovered(s, FindAll(p, s, 0), 0);
    KeptPositionsFacts(FindAll(p, s, 0), 0, |s|);
  }

  /** The positions of s that `sub` keeps. */
  function KeptPositionsOf(p: Pattern, s: seq<byte>): seq<nat>
    requires p != []
  {
    FindAllOrdered(p, s, 0);
    KeptPositions(FindAll(p, s, 0), 0, |s|)
  }

  /** Each match is at least |p| bytes long. */
  lemma {:induction false} CoveredLengthOfMatches(p: Pattern, s: seq<byte>, i: nat)
    requires p != [] && i <= |s|
    ensures CoveredLength(FindAll(p, s, i)) >= |p| * |FindAll(p, s, i)|
    decreases |s| - i
  {
    if i < |s| {
      match MatchAt(p, s, i)
      case Some(j) =>
        CoveredLengthOfMatches(p, s, j);
        var rest := FindAll(p, s, j);
        assert FindAll(p, s, i) == [Span(i, j)] + rest;
        assert |p| * (|rest| + 1) == |p| * |rest| + |p|;
      case None => CoveredLengthOfMatches(p, s, i + 1);
    }
  }

  /** `sub` changes the text iff `findall` found something, and then it
      shrinks it by at least |p| bytes per match. */
  lemma SubstituteShrinks(p: Pattern, s: seq<byte>)
    requires p != []
    ensures |Substitute(p, s)| <= |s| - |p| * MatchCount(p, s)
    ensures MatchCount(p, s) == 0 <==> Substitute(p, s) == s
  {
    var spans := FindAll(p, s, 0);
    FindAllOrdered(p, s, 0);
    SpliceLength(s, spans, 0);
    CoveredLengthOfMatches(p, s, 0);
    if spans == [] {
      assert Substitute(p, s) == s[0..] == s;
    }
  }

  /** `sub` only deletes bytes. */
  lemma SubstituteIsSubsequence(p: Pattern, s: seq<byte>)
    requires p != []
    ensures IsSubsequence(Substitute(p, s), s)
  {
    SubstituteKeepsUnmatched(p, s);
    var idx := KeptPositionsOf(p, s);
    assert Embeds(Substitute(p, s), s, idx);
  }

  lemma SubsequenceRefl(a: seq<byte>)
    ensures IsSubsequence(a, a)
  {
    assert Embeds(a, a, Range(0, |a|));
  }

  lemma SubsequenceTrans(a: seq<byte>, b: seq<byte>, c: seq<byte>)
    requires IsSubsequence(a, b) && IsSubsequence(b, c)
    ensures IsSubsequence(a, c)
  {
    var i1: seq<nat> :| Embeds(a, b, i1);
    var i2: seq<nat> :| Embeds(b, c, i2);
    var idx: seq<nat> := seq(|i1|, k requires 0 <= k < |i1| => i2[i1[k]]);
    forall k, l | 0 <= k < l < |idx| ensures idx[k] < idx[l] {
      assert i1[k] < i1[l];
    }
    assert Embeds(a, c, idx);
  }
}
