/**
 * `BoxRemover`: the quick detector that gates a page, the walk over a
 * page's resources, form XObjects, soft masks and content streams, and the
 * bookkeeping (`processed_objects`, `stats`) that the walk updates.
 */
module BoxRemoval {
  import opened Wrappers
  import opened Patterns
  import opened Substitution
  import opened Rewriter
  import opened PdfModel

  /** The `stats` dictionary. */
  datatype Stats = Stats(
    pagesProcessed: nat,
    pagesSkipped: nat,
    boxesRemoved: nat,
    objectsProcessed: nat,
    quickMatches: nat)

  const EmptyStats := Stats(0, 0, 0, 0, 0)

  /** What `remove_boxes_from_content` adds to `boxes_removed` over a run
      of contents. */
  function TotalRemoved(log: seq<seq<byte>>): nat {
    if log == [] then 0 else TotalRemoved(log[..|log| - 1]) + BoxesRemoved(log[|log| - 1])
  }

  lemma TotalRemovedSnoc(log: seq<seq<byte>>, c: seq<byte>)
    ensures TotalRemoved(log + [c]) == TotalRemoved(log) + BoxesRemoved(c)
  {
    assert (log + [c])[..|log|] == log;
  }

  /** The count over two runs is the sum of the counts. */
  lemma {:induction false} TotalRemovedAppend(a: seq<seq<byte>>, b: seq<seq<byte>>)
    ensures TotalRemoved(a + b) == TotalRemoved(a) + TotalRemoved(b)
    decreases |b|
  {
    if b != [] {
      var init, last := b[..|b| - 1], b[|b| - 1];
      assert b == init + [last];
      assert a + b == (a + init) + [last];
      TotalRemovedAppend(a, init);
      TotalRemovedSnoc(a + init, last);
      TotalRemovedSnoc(init, last);
    } else {
      assert a + b == a;
    }
  }

  /** Keys under which the walk records resource dictionaries and form
      XObjects; each walk step adds one of them, which bounds the recursion. */
  ghost function WalkKeys(doc: Pdf): set<string> {
    (set r | r in doc.heap :: ObjectId(doc.objgen(r), "res_")) +
    (set r | r in doc.heap :: ObjectId(doc.objgen(r), "form_"))
  }

  lemma SubsetCard(a: set<string>, b: set<string>)
    requires a <= b
    ensures |a| <= |b|
  {
    if a != {} {
      var x :| x in a;
      SubsetCard(a - {x}, b - {x});
    }
  }

  lemma MeasureMono(u: set<string>, p0: set<string>, p: set<string>)
    requires p0 <= p
    ensures |u - p| <= |u - p0|
  {
    SubsetCard(u - p, u - p0);
  }

  lemma MeasureDrops(u: set<string>, p0: set<string>, p: set<string>, k: string)
    requires k in u && k !in p0 && p0 + {k} <= p
    ensures |u - p| < |u - p0|
  {
    SubsetCard(u - p, (u - p0) - {k});
  }

  /** XObject names the walk follows: "/Fm…" and "/FXX…". */
  predicate IsFormKey(key: string) {
    "/Fm" <= key || "/FXX" <= key
  }

  /** The edges of the walk, as a closure condition on a set S of objects:
      from a resource dictionary to its form-named XObjects and to the
      /SMask of each graphics state, and from a stream to its /Resources. */
  ghost predicate WalkClosed(doc: Pdf, S: set<Ref>) {
    forall r {:trigger ClosedAt(doc, r, S)} :: r in S ==> ClosedAt(doc, r, S)
  }

  ghost predicate ClosedAt(doc: Pdf, r: Ref, S: set<Ref>) {
    match doc.Deref(r)
    case Dict(_) =>
      FormsIn(doc, Get(doc.Deref(r), "/XObject"), S) && SoftMasksIn(doc, Get(doc.Deref(r), "/ExtGState"), S)
    case Stream(_) =>
      var res := Get(doc.Deref(r), "/Resources");
      res.Some? ==> res.value in S
    case _ => true
  }

  ghost predicate FormsIn(doc: Pdf, xobjects: Option<Ref>, S: set<Ref>) {
    xobjects.Some? && doc.Deref(xobjects.value).Dict? ==>
      forall e :: e in doc.Deref(xobjects.value).entries && IsFormKey(e.key) ==> e.val in S
  }

  ghost predicate SoftMasksIn(doc: Pdf, extgstate: Option<Ref>, S: set<Ref>) {
    extgstate.Some? && doc.Deref(extgstate.value).Dict? ==>
      forall e :: e in doc.Deref(extgstate.value).entries ==> HasSoftMaskIn(doc, e.val, S)
  }

  ghost predicate HasSoftMaskIn(doc: Pdf, g: Ref, S: set<Ref>) {
    var smask := Get(doc.Deref(g), "/SMask");
    doc.Deref(g).Dict? && smask.Some? ==> smask.value in S
  }

  /** The content streams of a page: the /Contents array's items, or the
      single /Contents object, or nothing when /Contents is missing or
      empty. */
  function ContentRefs(doc: Pdf, page: Ref): seq<Ref> {
    var contents := Get(doc.Deref(page), "/Contents");
    if contents.None? || !Truthy(doc.Deref(contents.value)) then []
    else if doc.Deref(contents.value).Array? then doc.Deref(contents.value).items
    else [contents.value]
  }

  /** The objects a page's walk starts from are in S. */
  ghost predicate PageRootsIn(doc: Pdf, page: Ref, S: set<Ref>) {
    (var res := Get(doc.Deref(page), "/Resources"); res.Some? ==> res.value in S) &&
    forall k :: 0 <= k < |ContentRefs(doc, page)| ==> ContentRefs(doc, page)[k] in S
  }

  /** f applied n times. */
  function Repeat(f: seq<byte> -> seq<byte>, n: nat, data: seq<byte>): seq<byte> {
    if n == 0 then data else f(Repeat(f, n - 1, data))
  }

  lemma {:induction false} RepeatCompose(f: seq<byte> -> seq<byte>, m: nat, n: nat, data: seq<byte>)
    ensures Repeat(f, m, Repeat(f, n, data)) == Repeat(f, m + n, data)
  {
    if m > 0 {
      RepeatCompose(f, m - 1, n, data);
    }
  }

  /** Repeating a step that only deletes bytes only deletes bytes. */
  lemma {:induction false} RepeatDeletes(f: seq<byte> -> seq<byte>, n: nat, data: seq<byte>)
    requires forall x :: IsSubsequence(f(x), x)
    ensures IsSubsequence(Repeat(f, n, data), data)
  {
    if n == 0 {
      SubsequenceRefl(data);
    } else {
      var prev := Repeat(f, n - 1, data);
      RepeatDeletes(f, n - 1, data);
      SubsequenceTrans(f(prev), prev, data);
    }
  }

  /** Repeating a step that never grows its input never grows it. */
  lemma {:induction false} RepeatShrinks(f: seq<byte> -> seq<byte>, n: nat, data: seq<byte>)
    requires forall x :: |f(x)| <= |x|
    ensures |Repeat(f, n, data)| <= |data|
  {
    if n > 0 {
      RepeatShrinks(f, n - 1, data);
    }
  }

  /** The effect of a walk on the stream bytes: the same streams exist,
      each holds its old bytes rewritten some number of times, and only
      streams in S changed. */
  ghost predicate Rewritten(now: map<Ref, seq<byte>>, before: map<Ref, seq<byte>>, S: set<Ref>) {
    now.Keys == before.Keys &&
    forall q :: q in before ==> RewrittenFrom(now[q], before[q]) && (now[q] != before[q] ==> q in S)
  }

  /** x is y rewritten some number of times. */
  ghost predicate RewrittenFrom(x: seq<byte>, y: seq<byte>) {
    exists n: nat :: x == Repeat(RemoveBoxes, n, y)
  }

  lemma RewrittenRefl(m: map<Ref, seq<byte>>, S: set<Ref>)
    ensures Rewritten(m, m, S)
  {
    forall q | q in m ensures RewrittenFrom(m[q], m[q]) {
      assert m[q] == Repeat(RemoveBoxes, 0, m[q]);
    }
  }

  lemma RewrittenTrans(c: map<Ref, seq<byte>>, b: map<Ref, seq<byte>>, a: map<Ref, seq<byte>>, S: set<Ref>)
    requires Rewritten(c, b, S) && Rewritten(b, a, S)
    ensures Rewritten(c, a, S)
  {
    forall q | q in a ensures RewrittenFrom(c[q], a[q]) {
      var n1: nat :| b[q] == Repeat(RemoveBoxes, n1, a[q]);
      var n2: nat :| c[q] == Repeat(RemoveBoxes, n2, b[q]);
      RepeatCompose(RemoveBoxes, n2, n1, a[q]);
    }
  }

  /** The bytes after one content-stream step, as the step leaves them:
      written back only when the rewrite changed them. */
  lemma StepStreams(now: map<Ref, seq<byte>>, before: map<Ref, seq<byte>>, r: Ref, S: set<Ref>, visits: bool, changed: bool)
    requires r in S
    requires changed <==> visits && r in before && RemoveBoxes(before[r]) != before[r]
    requires now == if changed then before[r := RemoveBoxes(before[r])] else before
    ensures now == if visits && r in before then before[r := RemoveBoxes(before[r])] else before
    ensures Rewritten(now, before, S)
  {
    RewrittenRefl(before, S);
    if changed {
      RewrittenStep(now, before, before, r, S);
    } else if visits && r in before {
      assert before[r := RemoveBoxes(before[r])] == before;
    }
  }

  /** One more rewrite of a stream in S keeps the relation. */
  lemma RewrittenStep(now: map<Ref, seq<byte>>, mid: map<Ref, seq<byte>>, before: map<Ref, seq<byte>>, r: Ref, S: set<Ref>)
    requires Rewritten(mid, before, S) && r in S && r in mid
    requires now == mid[r := RemoveBoxes(mid[r])]
    ensures Rewritten(now, before, S)
  {
    forall q | q in before
      ensures RewrittenFrom(now[q], before[q]) && (now[q] != before[q] ==> q in S)
    {
      var n: nat :| mid[q] == Repeat(RemoveBoxes, n, before[q]);
      if q == r {
        assert now[q] == Repeat(RemoveBoxes, n + 1, before[q]);
      } else {
        assert now[q] == mid[q];
      }
    }
  }

  /** A walk never adds bytes to a stream. */
  lemma RewrittenOnlyDeletes(now: map<Ref, seq<byte>>, before: map<Ref, seq<byte>>, S: set<Ref>)
    requires Rewritten(now, before, S)
    ensures forall q :: q in before ==> IsSubsequence(now[q], before[q]) && |now[q]| <= |before[q]|
  {
    forall q | q in before ensures IsSubsequence(now[q], before[q]) && |now[q]| <= |before[q]| {
      var n: nat :| now[q] == Repeat(RemoveBoxes, n, before[q]);
      RemoveBoxesAlwaysDeletes();
      RepeatDeletes(RemoveBoxes, n, before[q]);
      RepeatShrinks(RemoveBoxes, n, before[q]);
    }
  }

  /** The outcome of `_should_process_stream` for one object. */
  datatype Verdict =
    | NotAStream   // not a stream: skip
    | Unreadable   // read_bytes raises: process, to be safe
    | Boxes        // a quick pattern was found
    | NoBoxes

  predicate Passes(v: Verdict) {
    v == Unreadable || v == Boxes
  }

  function StreamVerdict(doc: Pdf, r: Ref): Verdict
    reads doc
  {
    if !doc.Deref(r).Stream? then NotAStream
    else if r !in doc.streams then Unreadable
    else if QuickSearch(Basic, doc.streams[r]) then Boxes
    else NoBoxes
  }

  /** `any(...)` over rs[i..]: the verdict of the first stream that passes,
      where the scan stops. */
  function FirstPassing(doc: Pdf, rs: seq<Ref>, i: nat): Option<Verdict>
    reads doc
    requires i <= |rs|
    decreases |rs| - i
  {
    if i == |rs| then None
    else if Passes(StreamVerdict(doc, rs[i])) then Some(StreamVerdict(doc, rs[i]))
    else FirstPassing(doc, rs, i + 1)
  }

  /** `_should_process_page`, with the verdict of the stream that decided it. */
  function PageVerdict(doc: Pdf, page: Ref): Option<Verdict>
    reads doc
  {
    FirstPassing(doc, ContentRefs(doc, page), 0)
  }

  lemma {:induction false} FirstPassingIsAny(doc: Pdf, rs: seq<Ref>, i: nat)
    requires i <= |rs|
    ensures FirstPassing(doc, rs, i).Some? <==> exists k :: i <= k < |rs| && Passes(StreamVerdict(doc, rs[k]))
    ensures FirstPassing(doc, rs, i).Some? ==> Passes(FirstPassing(doc, rs, i).value)
    decreases |rs| - i
  {
    if i < |rs| {
      FirstPassingIsAny(doc, rs, i + 1);
    }
  }

  /** A page passes the gate iff one of its content streams is unreadable or
      shows a quick pattern. */
  lemma PageGateIsAny(doc: Pdf, page: Ref)
    ensures PageVerdict(doc, page).Some? <==>
      exists k :: 0 <= k < |ContentRefs(doc, page)| && Passes(StreamVerdict(doc, ContentRefs(doc, page)[k]))
  {
    FirstPassingIsAny(doc, ContentRefs(doc, page), 0);
  }

  /** The gate never hides a page whose content the rewrite would change,
      provided the whitespace inside that content's `re…op` occurrences is
      ASCII. */
  lemma PageGateSound(doc: Pdf, page: Ref, k: nat)
    requires k < |ContentRefs(doc, page)|
    requires var r := ContentRefs(doc, page)[k];
      doc.Deref(r).Stream? && r in doc.streams &&
      RemoveBoxes(doc.streams[r]) != doc.streams[r] && BoxRunsAscii(doc.streams[r])
    ensures PageVerdict(doc, page).Some?
  {
    var r := ContentRefs(doc, page)[k];
    DetectorSound(doc.streams[r]);
    assert Passes(StreamVerdict(doc, r));
    PageGateIsAny(doc, page);
  }

  /** The key of a content stream: the caller's id, or "stream_" + objgen. */
  function StreamKey(doc: Pdf, r: Ref, streamId: Option<string>): string {
    if streamId.Some? then streamId.value else ObjectId(doc.objgen(r), "stream_")
  }

  function ResKey(doc: Pdf, r: Ref): string { ObjectId(doc.objgen(r), "res_") }
  function FormKey(doc: Pdf, x: Ref): string { ObjectId(doc.objgen(x), "form_") }

  /** The keys a resource walk records: resource dictionaries, form
      XObjects and the content streams of form XObjects. */
  predicate IsWalkTag(key: string) {
    "res_" <= key || "form_" <= key || "stream_form_" <= key
  }

  /** From `before` to `after` only walk keys were recorded, and a form's
      content key only while the form's own key was not yet recorded. */
  ghost predicate WalkAdds(before: set<string>, after: set<string>) {
    before <= after &&
    forall key {:trigger key in after} | key in after && key !in before ::
      IsWalkTag(key) && ("stream_" <= key ==> key[7..] !in before)
  }

  lemma WalkAddsTrans(a: set<string>, b: set<string>, c: set<string>)
    requires WalkAdds(a, b) && WalkAdds(b, c)
    ensures WalkAdds(a, c)
  {
  }

  /** The prefixes of the keys: a plain stream key is never a walk key. */
  lemma KeyTags(og: ObjGen)
    ensures "res_" <= ObjectId(og, "res_")
    ensures IsWalkTag(ObjectId(og, "res_")) && !("stream_" <= ObjectId(og, "res_"))
    ensures IsWalkTag(ObjectId(og, "form_")) && !("stream_" <= ObjectId(og, "form_"))
    ensures var s := "stream_" + ObjectId(og, "form_");
      IsWalkTag(s) && "stream_" <= s && s[7..] == ObjectId(og, "form_")
    ensures !IsWalkTag(ObjectId(og, "stream_"))
  {
    var r, f, t := ObjectId(og, "res_"), ObjectId(og, "form_"), ObjectId(og, "stream_");
    assert r[..4] == "res_" && f[..5] == "form_";
    assert r[0] == 'r' && f[0] == 'f' && t[0] == 's';
    var s := "stream_" + f;
    assert s[..12] == "stream_form_";
    assert t[7] == Decimal(og.num)[0];
  }

  lemma PageKeyTag(og: ObjGen, n: nat)
    ensures "page_" <= ObjectId(og, "page_" + Decimal(n) + "_")
  {
    assert ObjectId(og, "page_" + Decimal(n) + "_")[..5] == "page_";
  }

  /** A page key is never a plain stream key. */
  lemma PageKeyNotStreamKey(og: ObjGen, og2: ObjGen, n: nat)
    ensures ObjectId(og, "page_" + Decimal(n) + "_") != ObjectId(og2, "stream_")
  {
    assert ObjectId(og, "page_" + Decimal(n) + "_")[0] == 'p';
    assert ObjectId(og2, "stream_")[0] == 's';
  }

  /** The entries of the sub-dictionary `name` of a resource dictionary,
      or none when it is missing or not a dictionary. */
  function SubEntries(doc: Pdf, node: Obj, name: string): seq<Entry> {
    var d := Get(node, name);
    if d.Some? && doc.Deref(d.value).Dict? then doc.Deref(d.value).entries else []
  }

  /** An XObject entry the walk enters: a form-named stream with
      /Subtype /Form. */
  predicate FormEntry(doc: Pdf, e: Entry) {
    var st := Get(doc.Deref(e.val), "/Subtype");
    IsFormKey(e.key) && doc.Deref(e.val).Stream? && st.Some? && doc.Deref(st.value) == Name("/Form")
  }

  /** The /SMask of a graphics-state entry, if it is a dictionary that has one. */
  function SoftMask(doc: Pdf, e: Entry): Option<Ref> {
    if doc.Deref(e.val).Dict? then Get(doc.Deref(e.val), "/SMask") else None
  }

  /** After a walk of resource dictionary r: its key, the key of each form
      XObject it names and the key of each soft-mask stream of its
      graphics states are recorded. */
  ghost predicate ResourcesWalked(doc: Pdf, r: Ref, processed: set<string>) {
    doc.Deref(r).Dict? ==>
      && ResKey(doc, r) in processed
      && FormsRecorded(doc, SubEntries(doc, doc.Deref(r), "/XObject"), processed)
      && SoftMasksRecorded(doc, SubEntries(doc, doc.Deref(r), "/ExtGState"), processed)
  }

  ghost predicate FormsRecorded(doc: Pdf, xs: seq<Entry>, processed: set<string>) {
    forall j | 0 <= j < |xs| && FormEntry(doc, xs[j]) :: FormKey(doc, xs[j].val) in processed
  }

  ghost predicate SoftMasksRecorded(doc: Pdf, gs: seq<Entry>, processed: set<string>) {
    forall j | 0 <= j < |gs| && SoftMask(doc, gs[j]).Some? && doc.Deref(SoftMask(doc, gs[j]).value).Stream? ::
      FormKey(doc, SoftMask(doc, gs[j]).value) in processed
  }

  /** No graphics state of gs has a stream /SMask. In a conforming file
      (sections 8.4.5 and 11.6.5.2 of ISO 32000-1) an /SMask is a soft-mask dictionary,
      whose /G entry names the transparency group, or the name /None. */
  ghost predicate NoStreamSoftMask(doc: Pdf, gs: seq<Entry>) {
    forall j | 0 <= j < |gs| && SoftMask(doc, gs[j]).Some? :: !doc.Deref(SoftMask(doc, gs[j]).value).Stream?
  }

  lemma ResourcesWalkedMono(doc: Pdf, r: Ref, p: set<string>, q: set<string>)
    requires ResourcesWalked(doc, r, p) && p <= q
    ensures ResourcesWalked(doc, r, q)
  {
  }

  lemma FormsRecordedStep(doc: Pdf, xs: seq<Entry>, k: nat, p0: set<string>, p: set<string>)
    requires k < |xs| && FormsRecorded(doc, xs[..k], p0) && p0 <= p
    requires FormEntry(doc, xs[k]) ==> FormKey(doc, xs[k].val) in p
    ensures FormsRecorded(doc, xs[..k + 1], p)
  {
  }

  lemma FormsRecordedMono(doc: Pdf, xs: seq<Entry>, p0: set<string>, p: set<string>)
    requires FormsRecorded(doc, xs, p0) && p0 <= p
    ensures FormsRecorded(doc, xs, p)
  {
  }

  lemma SoftMasksRecordedStep(doc: Pdf, gs: seq<Entry>, k: nat, p0: set<string>, p: set<string>)
    requires k < |gs| && SoftMasksRecorded(doc, gs[..k], p0) && p0 <= p
    requires SoftMask(doc, gs[k]).Some? && doc.Deref(SoftMask(doc, gs[k]).value).Stream? ==>
      FormKey(doc, SoftMask(doc, gs[k]).value) in p
    ensures SoftMasksRecorded(doc, gs[..k + 1], p)
  {
  }

  /** Key kinds are told apart by their first character. */
  lemma KeyKindsDiffer(og1: ObjGen, og2: ObjGen, n: nat)
    ensures ObjectId(og1, "res_") != ObjectId(og2, "form_")
    ensures ObjectId(og1, "res_") != ObjectId(og2, "page_" + Decimal(n) + "_")
  {
    assert ObjectId(og1, "res_")[0] == 'r';
    assert ObjectId(og2, "form_")[0] == 'f';
    assert ObjectId(og2, "page_" + Decimal(n) + "_")[0] == 'p';
  }

  /** After a walk of form XObject x: its content key is recorded, and so
      is everything its resources lead to when they were new. */
  ghost predicate FormWalked(doc: Pdf, x: Ref, before: set<string>, after: set<string>) {
    var res := Get(doc.Deref(x), "/Resources");
    && "stream_" + FormKey(doc, x) in after
    && (res.Some? && Truthy(doc.Deref(res.value)) && ResKey(doc, res.value) !in before ==>
          ResourcesWalked(doc, res.value, after))
  }

  /** A readable stream whose plain key is not yet recorded. */
  ghost predicate FreshStream(doc: Pdf, r: Ref, processed: set<string>, streams: map<Ref, seq<byte>>) {
    doc.Deref(r).Stream? && r in streams && StreamKey(doc, r, None) !in processed
  }

  /** The plain keys of the streams among rs. */
  ghost function ContentKeys(doc: Pdf, rs: seq<Ref>): set<string> {
    set r | r in rs && doc.Deref(r).Stream? :: StreamKey(doc, r, None)
  }

  /** After a page's walk: its resources, when they were new, are walked,
      and every stream of its /Contents has its key recorded. */
  ghost predicate PageWalked(doc: Pdf, page: Ref, before: set<string>, after: set<string>) {
    var res := Get(doc.Deref(page), "/Resources");
    && (res.Some? && Truthy(doc.Deref(res.value)) && ResKey(doc, res.value) !in before ==>
          ResourcesWalked(doc, res.value, after))
    && ContentKeys(doc, ContentRefs(doc, page)) <= after
  }

  /** x is y rewritten at least once. */
  ghost predicate RewrittenAtLeastOnce(x: seq<byte>, y: seq<byte>) {
    exists n: nat :: 1 <= n && x == Repeat(RemoveBoxes, n, y)
  }

  lemma RewrittenOnceMore(x: seq<byte>, mid: seq<byte>, y: seq<byte>)
    requires RewrittenFrom(mid, y) && x == RemoveBoxes(mid)
    ensures RewrittenAtLeastOnce(x, y)
  {
    var n: nat :| mid == Repeat(RemoveBoxes, n, y);
    assert x == Repeat(RemoveBoxes, n + 1, y);
  }

  /** Under distinct objgen pairs, two streams with one plain key are one. */
  lemma SameStreamKey(doc: Pdf, a: Ref, b: Ref)
    requires StreamsDistinct(doc) && doc.Deref(a).Stream? && doc.Deref(b).Stream?
    requires StreamKey(doc, a, None) == StreamKey(doc, b, None)
    ensures a == b
  {
    ObjectIdInjective(doc.objgen(a), doc.objgen(b), "stream_");
  }

  /** Does `process_content_stream` get past its two early returns? */
  predicate Visits(doc: Pdf, r: Ref, streamId: Option<string>, processed: set<string>) {
    doc.Deref(r).Stream? && StreamKey(doc, r, streamId) !in processed
  }

  function PageKey(doc: Pdf, page: Ref, pageNum: nat): string {
    ObjectId(doc.objgen(page), "page_" + Decimal(pageNum) + "_")
  }

  /** Does `process_page` get past its two skips? */
  predicate PageRuns(doc: Pdf, page: Ref, pageNum: nat, processed: set<string>)
    reads doc
  {
    PageKey(doc, page, pageNum) !in processed && PageVerdict(doc, page).Some?
  }

  /** Object keys, resource keys and rewritten contents only grow, so
      `objects_processed` and `boxes_removed` never fall during a walk. */
  ghost predicate TallyGrows(a: (set<string>, set<string>, seq<seq<byte>>), b: (set<string>, set<string>, seq<seq<byte>>)) {
    a.0 <= b.0 && a.1 <= b.1 && a.2 <= b.2
  }

  lemma TallyGrowsTrans(a: (set<string>, set<string>, seq<seq<byte>>), b: (set<string>, set<string>, seq<seq<byte>>),
                        c: (set<string>, set<string>, seq<seq<byte>>))
    requires TallyGrows(a, b) && TallyGrows(b, c)
    ensures TallyGrows(a, c)
  {
  }

  /** The recorded keys split into object keys, resource keys (tagged
      "res_") and page keys (tagged "page_"). */
  ghost predicate Partitioned(processed: set<string>, objectKeys: set<string>, resKeys: set<string>, pageKeys: set<string>) {
    && objectKeys + resKeys + pageKeys == processed
    && objectKeys !! resKeys && objectKeys !! pageKeys && resKeys !! pageKeys
    && (forall k | k in resKeys :: "res_" <= k)
    && (forall k | k in pageKeys :: "page_" <= k)
  }

  /** The object keys are exactly the recorded keys that are neither
      resource nor page keys, so under Walking `objects_processed` counts
      those. */
  lemma PartitionCount(p: set<string>, o: set<string>, rk: set<string>, pk: set<string>)
    requires Partitioned(p, o, rk, pk)
    ensures o == p - (rk + pk) && |o| == |p| - |rk| - |pk|
  {
    assert p - (rk + pk) == o;
    assert |p| == |o + rk| + |pk|;
  }

  /** Recording a new key as an object key counts it once. */
  lemma AddObjectKey(p: set<string>, o: set<string>, rk: set<string>, pk: set<string>, key: string)
    requires Partitioned(p, o, rk, pk) && key !in p
    ensures Partitioned(p + {key}, o + {key}, rk, pk) && |o + {key}| == |o| + 1
  {
  }

  lemma AddResKey(p: set<string>, o: set<string>, rk: set<string>, pk: set<string>, key: string)
    requires Partitioned(p, o, rk, pk) && key !in p && "res_" <= key
    ensures Partitioned(p + {key}, o, rk + {key}, pk)
  {
  }

  lemma AddPageKey(p: set<string>, o: set<string>, rk: set<string>, pk: set<string>, key: string)
    requires Partitioned(p, o, rk, pk) && key !in p && "page_" <= key
    ensures Partitioned(p + {key}, o, rk, pk + {key})
  {
  }

  class BoxRemover {
    var processed: set<string>
    var stats: Stats
    /** The keys of `processed` recorded for form XObjects and content streams. */
    ghost var objectKeys: set<string>
    /** The keys of `processed` recorded for resource dictionaries. */
    ghost var resKeys: set<string>
    /** The keys of `processed` recorded for pages. */
    ghost var pageKeys: set<string>
    /** The `process_page` calls so far: page and page number. */
    ghost var pageLog: seq<(Ref, nat)>
    /** The contents `remove_boxes_from_content` has rewritten since the
        counters were last zeroed, in order. */
    ghost var rewrites: seq<seq<byte>>

    /** Holds between any two steps of a walk: every recorded key is an
        object, resource or page key; `objects_processed` counts the object
        keys (so it counts every recorded key but the resource and page
        keys), and `boxes_removed` is the number of boxes in the contents
        rewritten. */
    ghost predicate Walking()
      reads this
    {
      && Partitioned(processed, objectKeys, resKeys, pageKeys)
      && stats.objectsProcessed == |objectKeys|
      && stats.boxesRemoved == TotalRemoved(rewrites)
    }

    /** Everything the walk records besides the counters. */
    ghost function Books(): (set<string>, set<string>, set<string>, set<string>, seq<(Ref, nat)>, seq<seq<byte>>)
      reads this
    {
      (processed, objectKeys, resKeys, pageKeys, pageLog, rewrites)
    }

    /** What the counters are counted from: object keys, resource keys and
        rewritten contents. */
    ghost function Tally(): (set<string>, set<string>, seq<seq<byte>>)
      reads this
    {
      (objectKeys, resKeys, rewrites)
    }

    /** Holds between pages: also `pages_processed` counts the distinct
        page keys recorded. */
    ghost predicate Valid()
      reads this
    {
      Walking() && stats.pagesProcessed == |pageKeys|
    }

    /** What only `process_page` changes: the page keys, the page log and
        the page counters. */
    ghost function PageState(): (set<string>, seq<(Ref, nat)>, nat, nat, nat)
      reads this
    {
      (pageKeys, pageLog, stats.pagesProcessed, stats.pagesSkipped, stats.quickMatches)
    }

    constructor ()
      ensures Valid()
      ensures processed == {} && stats == EmptyStats && pageLog == []
    {
      processed := {};
      stats := EmptyStats;
      objectKeys := {};
      resKeys := {};
      pageKeys := {};
      pageLog := [];
      rewrites := [];
    }

    method ResetState()
      modifies this
      ensures Valid()
      ensures processed == {} && stats == EmptyStats
      ensures pageLog == old(pageLog)
    {
      processed := {};
      stats := EmptyStats;
      objectKeys := {};
      resKeys := {};
      pageKeys := {};
      rewrites := [];
    }

    /** `remove_boxes_from_content`: each BOX_PATTERNS entry in turn, counting
        its matches into `boxes_removed` before deleting them. */
    method RemoveBoxesFromContent(content: seq<byte>) returns (result: seq<byte>)
      modifies this
      ensures result == RemoveBoxes(content)
      ensures stats == old(stats).(boxesRemoved := old(stats.boxesRemoved) + BoxesRemoved(content))
      ensures rewrites == old(rewrites) + [content]
      ensures (processed, objectKeys, resKeys, pageKeys, pageLog) == old((processed, objectKeys, resKeys, pageKeys, pageLog))
      ensures old(Walking()) ==> Walking()
    {
      TotalRemovedSnoc(rewrites, content);
      BoxPatternsNonEmpty();
      var text := content;
      var originalLength := |content|;
      var k := 0;
      while k < |BoxPatterns|
        invariant 0 <= k <= |BoxPatterns|
        invariant ApplyPatterns(BoxPatterns[k..], text).text == ApplyPatterns(BoxPatterns, content).text
        invariant stats.boxesRemoved + ApplyPatterns(BoxPatterns[k..], text).removed
                  == old(stats.boxesRemoved) + BoxesRemoved(content)
        invariant stats == old(stats).(boxesRemoved := stats.boxesRemoved)
        invariant Books() == old(Books())
      {
        var pattern := BoxPatterns[k];
        assert BoxPatterns[k..][1..] == BoxPatterns[k + 1..];
        var matches := FindAll(pattern, text, 0);
        if |matches| > 0 {
          text := Substitute(pattern, text);
          stats := stats.(boxesRemoved := stats.boxesRemoved + |matches|);
        } else {
          SubstituteShrinks(pattern, text);
        }
        k := k + 1;
      }
      rewrites := rewrites + [content];
      if |text| != originalLength {
        result := text;
      } else {
        result := content;
      }
    }

    /** `_has_box_patterns`: search the QUICK_PATTERNS in order; the first
        hit counts one quick match. */
    method HasBoxPatterns(content: seq<byte>) returns (found: bool)
      modifies this
      ensures found == QuickSearch(Basic, content)
      ensures stats == old(stats).(quickMatches := old(stats.quickMatches) + (if found then 1 else 0))
      ensures Books() == old(Books())
    {
      if content == [] {
        return false;
      }
      QuickSearchIsBasic(content);
      var k := 0;
      while k < |QuickPatterns|
        invariant 0 <= k <= |QuickPatterns|
        invariant forall j :: 0 <= j < k ==> !QuickSearch(QuickPatterns[j], content)
      {
        if QuickSearch(QuickPatterns[k], content) {
          stats := stats.(quickMatches := stats.quickMatches + 1);
          return true;
        }
        k := k + 1;
      }
      return false;
    }

    /** `_should_process_stream`. */
    method ShouldProcessStream(doc: Pdf, r: Ref) returns (go: bool)
      modifies this
      ensures go == Passes(StreamVerdict(doc, r))
      ensures stats == old(stats).(quickMatches := old(stats.quickMatches) + (if StreamVerdict(doc, r) == Boxes then 1 else 0))
      ensures Books() == old(Books())
    {
      if !doc.Deref(r).Stream? {
        return false;
      }
      if r !in doc.streams {
        return true;
      }
      go := HasBoxPatterns(doc.streams[r]);
    }

    /** `_should_process_page`: stops at the first content stream that passes. */
    method ShouldProcessPage(doc: Pdf, page: Ref) returns (go: bool)
      modifies this
      ensures go == PageVerdict(doc, page).Some?
      ensures stats == old(stats).(quickMatches := old(stats.quickMatches) + (if PageVerdict(doc, page) == Some(Boxes) then 1 else 0))
      ensures Books() == old(Books())
    {
      var contents := Get(doc.Deref(page), "/Contents");
      if contents.None? || !Truthy(doc.Deref(contents.value)) {
        return false;
      }
      var node := doc.Deref(contents.value);
      if node.Array? {
        var items := node.items;
        assert ContentRefs(doc, page) == items;
        go := false;
        var k := 0;
        while k < |items| && !go
          invariant 0 <= k <= |items|
          invariant !go ==> FirstPassing(doc, items, 0) == FirstPassing(doc, items, k)
          invariant !go ==> stats == old(stats)
          invariant go ==> 0 < k && FirstPassing(doc, items, 0) == Some(StreamVerdict(doc, items[k - 1]))
          invariant go ==> stats == old(stats).(quickMatches := old(stats.quickMatches) + (if StreamVerdict(doc, items[k - 1]) == Boxes then 1 else 0))
          invariant Books() == old(Books())
        {
          go := ShouldProcessStream(doc, items[k]);
          k := k + 1;
        }
      } else {
        assert ContentRefs(doc, page) == [contents.value];
        go := ShouldProcessStream(doc, contents.value);
        assert FirstPassing(doc, [contents.value], 1) == None;
      }
    }

    /** `processed_objects.add(key)` and `objects_processed += 1` for a
        form XObject or a content stream. */
    method RecordObject(key: string)
      requires Walking() && key !in processed
      modifies this
      ensures Walking()
      ensures processed == old(processed) + {key} && objectKeys == old(objectKeys) + {key}
      ensures (resKeys, pageKeys, pageLog, rewrites) == old((resKeys, pageKeys, pageLog, rewrites))
      ensures stats == old(stats).(objectsProcessed := old(stats.objectsProcessed) + 1)
    {
      AddObjectKey(processed, objectKeys, resKeys, pageKeys, key);
      processed := processed + {key};
      objectKeys := objectKeys + {key};
      stats := stats.(objectsProcessed := stats.objectsProcessed + 1);
    }

    /** `processed_objects.add(res_id)`: a resource dictionary is recorded
        and not counted. */
    method RecordResources(key: string)
      requires Walking() && key !in processed && "res_" <= key
      modifies this
      ensures Walking()
      ensures processed == old(processed) + {key} && resKeys == old(resKeys) + {key}
      ensures (objectKeys, pageKeys, pageLog, rewrites, stats) == old((objectKeys, pageKeys, pageLog, rewrites, stats))
    {
      AddResKey(processed, objectKeys, resKeys, pageKeys, key);
      processed := processed + {key};
      resKeys := resKeys + {key};
    }

    /** `processed_objects.add(page_id)`: a page is recorded; it is
        counted in `pages_processed` once its walk is over. */
    method RecordPage(key: string)
      requires Walking() && key !in processed && "page_" <= key
      modifies this
      ensures Walking()
      ensures processed == old(processed) + {key} && pageKeys == old(pageKeys) + {key}
      ensures (objectKeys, resKeys, pageLog, rewrites, stats) == old((objectKeys, resKeys, pageLog, rewrites, stats))
    {
      AddPageKey(processed, objectKeys, resKeys, pageKeys, key);
      processed := processed + {key};
      pageKeys := pageKeys + {key};
    }

    /** `pages_skipped += 1` or `pages_processed += 1`. */
    method CountPage(skipped: bool)
      requires Walking()
      modifies this
      ensures Walking() && Books() == old(Books())
      ensures stats == if skipped then old(stats).(pagesSkipped := old(stats.pagesSkipped) + 1)
                       else old(stats).(pagesProcessed := old(stats.pagesProcessed) + 1)
    {
      if skipped {
        stats := stats.(pagesSkipped := stats.pagesSkipped + 1);
      } else {
        stats := stats.(pagesProcessed := stats.pagesProcessed + 1);
      }
    }

    /** `process_content_stream` / `_process_content_stream`: record the key,
        count the object, rewrite the bytes and write them back only if they
        changed. An unreadable stream stays recorded and counted. */
    method ProcessContentStream(doc: Pdf, r: Ref, streamId: Option<string>) returns (changed: bool)
      requires Walking()
      modifies this, doc
      ensures Walking()
      ensures PageState() == old(PageState()) && TallyGrows(old(Tally()), Tally())
      ensures Visits(doc, r, streamId, old(processed)) ==>
        var key := StreamKey(doc, r, streamId);
        && processed == old(processed) + {key} && objectKeys == old(objectKeys) + {key} && resKeys == old(resKeys)
        && stats == old(stats).(objectsProcessed := old(stats.objectsProcessed) + 1,
                                boxesRemoved := old(stats.boxesRemoved) +
                                  if r in old(doc.streams) then BoxesRemoved(old(doc.streams)[r]) else 0)
      ensures !Visits(doc, r, streamId, old(processed)) ==>
        processed == old(processed) && Tally() == old(Tally()) && stats == old(stats)
      ensures rewrites == old(rewrites) +
        if Visits(doc, r, streamId, old(processed)) && r in old(doc.streams) then [old(doc.streams)[r]] else []
      ensures changed <==>
        Visits(doc, r, streamId, old(processed)) && r in old(doc.streams) &&
        RemoveBoxes(old(doc.streams)[r]) != old(doc.streams)[r]
      ensures doc.streams == if changed then old(doc.streams)[r := RemoveBoxes(old(doc.streams)[r])] else old(doc.streams)
    {
      if !doc.Deref(r).Stream? {
        return false;
      }
      var key := if streamId.Some? then streamId.value else ObjectId(doc.objgen(r), "stream_");
      if key in processed {
        return false;
      }
      RecordObject(key);
      if r !in doc.streams {
        return false;
      }
      var content := doc.streams[r];
      var modified := RemoveBoxesFromContent(content);
      if modified != content {
        doc.streams := doc.streams[r := modified];
        changed := true;
      } else {
        changed := false;
      }
    }

    /** `_process_resources`: a resource dictionary is visited once per key;
        its form-named XObjects whose /Subtype is /Form, then the /SMask of
        each graphics-state dictionary, are walked as form XObjects. Image
        XObjects and every other object are left alone. */
    method ProcessResources(doc: Pdf, r: Ref, ghost S: set<Ref>)
      requires Walking() && WalkClosed(doc, S) && r in S
      modifies this, doc
      ensures Walking()
      ensures WalkAdds(old(processed), processed)
      ensures PageState() == old(PageState()) && TallyGrows(old(Tally()), Tally())
      ensures Rewritten(doc.streams, old(doc.streams), S)
      ensures doc.Deref(r).Dict? ==> ResKey(doc, r) in processed
      ensures doc.Deref(r).Dict? && ResKey(doc, r) !in old(processed) ==> ResKey(doc, r) in resKeys
      ensures ResKey(doc, r) !in old(processed) ==> ResourcesWalked(doc, r, processed)
      ensures !doc.Deref(r).Dict? || ResKey(doc, r) in old(processed) ==>
        processed == old(processed) && objectKeys == old(objectKeys) && stats == old(stats) && doc.streams == old(doc.streams)
      ensures FormsDone(doc, old(processed), processed, old(doc.streams), doc.streams)
      decreases |WalkKeys(doc) - processed|, 0
    {
      RewrittenRefl(doc.streams, S);
      FormsDoneRefl(doc, processed, doc.streams, doc.streams);
      var node := doc.Deref(r);
      if !node.Dict? {
        return;
      }
      var resId := ObjectId(doc.objgen(r), "res_");
      if resId in processed {
        return;
      }
      KeyTags(doc.objgen(r));
      RecordResources(resId);
      assert resId in WalkKeys(doc);
      ghost var p1, s1 := processed, doc.streams;
      OtherTags(doc.objgen(r), 0);
      FormsDoneOther(doc, old(processed), p1, s1, s1);

      MeasureDrops(WalkKeys(doc), old(processed), processed, resId);
      var xobjects := SubEntries(doc, node, "/XObject");
      WalkXObjects(doc, r, xobjects, S);
      ghost var p2, s2 := processed, doc.streams;

      MeasureDrops(WalkKeys(doc), old(processed), processed, resId);
      var gstates := SubEntries(doc, node, "/ExtGState");
      WalkExtGStates(doc, r, gstates, S);

      WalkAddsTrans(old(processed), p1, p2);
      WalkAddsTrans(old(processed), p2, processed);
      FormsDoneTrans(doc, old(processed), p1, p2, s1, s1, s2, S);
      FormsDoneTrans(doc, old(processed), p2, processed, s1, s2, doc.streams, S);
      RewrittenTrans(doc.streams, s2, s1, S);
      FormsRecordedMono(doc, xobjects, p2, processed);
    }

    /** The /XObject loop of `_process_resources` on dictionary r: each
        form-named entry whose /Subtype is /Form is walked as a form
        XObject. */
    method WalkXObjects(doc: Pdf, r: Ref, xobjects: seq<Entry>, ghost S: set<Ref>)
      requires Walking() && WalkClosed(doc, S) && r in S && doc.Deref(r).Dict?
      requires xobjects == SubEntries(doc, doc.Deref(r), "/XObject")
      modifies this, doc
      ensures Walking()
      ensures WalkAdds(old(processed), processed)
      ensures PageState() == old(PageState()) && TallyGrows(old(Tally()), Tally())
      ensures Rewritten(doc.streams, old(doc.streams), S)
      ensures FormsRecorded(doc, xobjects, processed)
      ensures FormsDone(doc, old(processed), processed, old(doc.streams), doc.streams)
      decreases |WalkKeys(doc) - processed|, 1
    {
      RewrittenRefl(doc.streams, S);
      FormsDoneRefl(doc, processed, doc.streams, doc.streams);
      for k := 0 to |xobjects|
        invariant Walking()
        invariant WalkAdds(old(processed), processed)
        invariant PageState() == old(PageState()) && TallyGrows(old(Tally()), Tally())
        invariant Rewritten(doc.streams, old(doc.streams), S)
        invariant FormsRecorded(doc, xobjects[..k], processed)
        invariant FormsDone(doc, old(processed), processed, old(doc.streams), doc.streams)
      {
        ghost var p0 := processed;
        var key := xobjects[k].key;
        var xobject := doc.Deref(xobjects[k].val);
        if IsFormKey(key) && (xobject.Dict? || xobject.Stream?) {
          var subtype := Get(xobject, "/Subtype");
          if subtype.Some? && doc.Deref(subtype.value) == Name("/Form") {
            assert ClosedAt(doc, r, S) && xobjects[k] in xobjects;
            ghost var before := doc.streams;
            MeasureMono(WalkKeys(doc), old(processed), processed);
            ProcessForm(doc, xobjects[k].val, S);
            FormsDoneTrans(doc, old(processed), p0, processed, old(doc.streams), before, doc.streams, S);
            RewrittenTrans(doc.streams, before, old(doc.streams), S);
            WalkAddsTrans(old(processed), p0, processed);
          }
        }
        FormsRecordedStep(doc, xobjects, k, p0, processed);
      }
      assert xobjects[..|xobjects|] == xobjects;
    }

    /** The /ExtGState loop of `_process_resources` on dictionary r: the
        /SMask of each graphics-state dictionary is walked as a form
        XObject. */
    method WalkExtGStates(doc: Pdf, r: Ref, gstates: seq<Entry>, ghost S: set<Ref>)
      requires Walking() && WalkClosed(doc, S) && r in S && doc.Deref(r).Dict?
      requires gstates == SubEntries(doc, doc.Deref(r), "/ExtGState")
      modifies this, doc
      ensures Walking()
      ensures WalkAdds(old(processed), processed)
      ensures PageState() == old(PageState()) && TallyGrows(old(Tally()), Tally())
      ensures Rewritten(doc.streams, old(doc.streams), S)
      ensures SoftMasksRecorded(doc, gstates, processed)
      ensures NoStreamSoftMask(doc, gstates) ==> processed == old(processed) && doc.streams == old(doc.streams)
      ensures FormsDone(doc, old(processed), processed, old(doc.streams), doc.streams)
      decreases |WalkKeys(doc) - processed|, 1
    {
      RewrittenRefl(doc.streams, S);
      FormsDoneRefl(doc, processed, doc.streams, doc.streams);
      for k := 0 to |gstates|
        invariant Walking()
        invariant WalkAdds(old(processed), processed)
        invariant PageState() == old(PageState()) && TallyGrows(old(Tally()), Tally())
        invariant Rewritten(doc.streams, old(doc.streams), S)
        invariant SoftMasksRecorded(doc, gstates[..k], processed)
        invariant NoStreamSoftMask(doc, gstates) ==> processed == old(processed) && doc.streams == old(doc.streams)
        invariant FormsDone(doc, old(processed), processed, old(doc.streams), doc.streams)
      {
        ghost var p0 := processed;
        var gstate := doc.Deref(gstates[k].val);
        var smask := Get(gstate, "/SMask");
        if gstate.Dict? && smask.Some? {
          assert ClosedAt(doc, r, S) && gstates[k] in gstates;
          assert HasSoftMaskIn(doc, gstates[k].val, S);
          ghost var before := doc.streams;
          MeasureMono(WalkKeys(doc), old(processed), processed);
          ProcessForm(doc, smask.value, S);
          FormsDoneTrans(doc, old(processed), p0, processed, old(doc.streams), before, doc.streams, S);
          RewrittenTrans(doc.streams, before, old(doc.streams), S);
          WalkAddsTrans(old(processed), p0, processed);
        }
        SoftMasksRecordedStep(doc, gstates, k, p0, processed);
      }
      assert gstates[..|gstates|] == gstates;
    }

    /** `_process_form_xobject`: a form XObject is visited once per key; its
        /Resources are walked first, then its own content stream under the
        key "stream_" + the form's key. */
    method ProcessForm(doc: Pdf, x: Ref, ghost S: set<Ref>)
      requires Walking() && WalkClosed(doc, S) && x in S
      modifies this, doc
      ensures Walking()
      ensures WalkAdds(old(processed), processed)
      ensures PageState() == old(PageState()) && TallyGrows(old(Tally()), Tally())
      ensures Rewritten(doc.streams, old(doc.streams), S)
      ensures doc.Deref(x).Stream? ==> FormKey(doc, x) in processed
      ensures doc.Deref(x).Stream? && FormKey(doc, x) !in old(processed) ==> FormKey(doc, x) in objectKeys
      ensures doc.Deref(x).Stream? && FormKey(doc, x) !in old(processed) ==> FormWalked(doc, x, old(processed), processed)
      ensures doc.Deref(x).Stream? && FormKey(doc, x) !in old(processed) && "stream_" + FormKey(doc, x) !in old(processed)
              && x in old(doc.streams) ==>
        RewrittenAtLeastOnce(doc.streams[x], old(doc.streams)[x])
      ensures !doc.Deref(x).Stream? || FormKey(doc, x) in old(processed) ==>
        processed == old(processed) && objectKeys == old(objectKeys) && stats == old(stats) && doc.streams == old(doc.streams)
      ensures FormsDone(doc, old(processed), processed, old(doc.streams), doc.streams)
      decreases |WalkKeys(doc) - processed|, 0
    {
      RewrittenRefl(doc.streams, S);
      FormsDoneRefl(doc, processed, doc.streams, doc.streams);
      var node := doc.Deref(x);
      if !node.Stream? {
        return;
      }
      var formId := ObjectId(doc.objgen(x), "form_");
      if formId in processed {
        return;
      }
      KeyTags(doc.objgen(x));
      RecordObject(formId);
      assert formId in WalkKeys(doc);
      MeasureDrops(WalkKeys(doc), old(processed), processed, formId);
      WalkForm(doc, x, formId, old(processed), S);
    }

    /** What `_process_form_xobject` does once the form's key is recorded:
        the form's /Resources when they are truthy, then its own content
        stream under "stream_" + the key. p0 is what was recorded before. */
    method WalkForm(doc: Pdf, x: Ref, formId: string, ghost p0: set<string>, ghost S: set<Ref>)
      requires Walking() && WalkClosed(doc, S) && x in S && doc.Deref(x).Stream?
      requires formId == FormKey(doc, x) && formId !in p0 && processed == p0 + {formId}
      modifies this, doc
      ensures Walking()
      ensures old(processed) <= processed && WalkAdds(p0, processed)
      ensures PageState() == old(PageState()) && TallyGrows(old(Tally()), Tally())
      ensures Rewritten(doc.streams, old(doc.streams), S)
      ensures FormWalked(doc, x, p0, processed)
      ensures "stream_" + formId !in p0 && x in old(doc.streams) ==>
        RewrittenAtLeastOnce(doc.streams[x], old(doc.streams)[x])
      ensures FormsDone(doc, p0, processed, old(doc.streams), doc.streams)
      decreases |WalkKeys(doc) - processed|, 1
    {
      KeyTags(doc.objgen(x));
      var res := Get(doc.Deref(x), "/Resources");
      if res.Some? && Truthy(doc.Deref(res.value)) {
        assert ClosedAt(doc, x, S);
        ProcessResources(doc, res.value, S);
        KeyKindsDiffer(doc.objgen(res.value), doc.objgen(x), 0);
      } else {
        RewrittenRefl(doc.streams, S);
        FormsDoneRefl(doc, processed, doc.streams, doc.streams);
      }
      ghost var p2, before := processed, doc.streams;
      ProcessContentRef(doc, x, Some("stream_" + formId), S);
      RewrittenTrans(doc.streams, before, old(doc.streams), S);
      FormKeysAdded(p0, old(processed), p2, processed, formId);
      FormWalkedAfter(doc, x, p0, old(processed), p2, processed);
      if "stream_" + formId !in p0 && x in old(doc.streams) {
        RewrittenOnceMore(doc.streams[x], before[x], old(doc.streams)[x]);
      }
      FormStepDone(doc, x, p0, p2, processed, old(doc.streams), before, doc.streams, S);
    }

    /** The content-stream step on a stream in S: `process_content_stream`'s
        effect, and that the rewrite stays inside S. */
    method ProcessContentRef(doc: Pdf, r: Ref, streamId: Option<string>, ghost S: set<Ref>)
      requires Walking() && r in S
      modifies this, doc
      ensures Walking()
      ensures PageState() == old(PageState()) && TallyGrows(old(Tally()), Tally())
      ensures Visits(doc, r, streamId, old(processed)) ==>
        var key := StreamKey(doc, r, streamId);
        && processed == old(processed) + {key} && objectKeys == old(objectKeys) + {key} && resKeys == old(resKeys)
        && stats == old(stats).(objectsProcessed := old(stats.objectsProcessed) + 1,
                                boxesRemoved := old(stats.boxesRemoved) +
                                  if r in old(doc.streams) then BoxesRemoved(old(doc.streams)[r]) else 0)
      ensures !Visits(doc, r, streamId, old(processed)) ==>
        processed == old(processed) && Tally() == old(Tally()) && stats == old(stats)
      ensures rewrites == old(rewrites) +
        if Visits(doc, r, streamId, old(processed)) && r in old(doc.streams) then [old(doc.streams)[r]] else []
      ensures doc.streams ==
        if Visits(doc, r, streamId, old(processed)) && r in old(doc.streams)
        then old(doc.streams)[r := RemoveBoxes(old(doc.streams)[r])]
        else old(doc.streams)
      ensures Rewritten(doc.streams, old(doc.streams), S)
    {
      ghost var before := doc.streams;
      var changed := ProcessContentStream(doc, r, streamId);
      StepStreams(doc.streams, before, r, S, Visits(doc, r, streamId, old(processed)), changed);
    }

    /** The page's `/Contents`: each stream of an array, or the single
        object, goes through the content-stream step (see ContentsDone). */
    method ProcessContents(doc: Pdf, page: Ref, ghost S: set<Ref>)
      requires Walking()
      requires forall k :: 0 <= k < |ContentRefs(doc, page)| ==> ContentRefs(doc, page)[k] in S
      modifies this, doc
      ensures Walking()
      ensures PageState() == old(PageState()) && TallyGrows(old(Tally()), Tally())
      ensures Rewritten(doc.streams, old(doc.streams), S)
      ensures ContentsDone(doc, ContentRefs(doc, page), old(processed), processed, old(doc.streams), doc.streams)
      ensures var log := ReadBytes(old(doc.streams), Fresh(doc, ContentRefs(doc, page), old(processed)));
        && rewrites == old(rewrites) + log
        && stats == old(stats).(objectsProcessed := old(stats.objectsProcessed) + |processed - old(processed)|,
                                boxesRemoved := old(stats.boxesRemoved) + TotalRemoved(log))
    {
      RewrittenRefl(doc.streams, S);
      // the /Contents array's items, or the single /Contents object
      var refs := ContentRefs(doc, page);
      assert ContentKeys(doc, refs[..0]) == {};
      assert processed - old(processed) == {};
      assert refs[..0] == [] && Fresh(doc, refs[..0], old(processed)) == [];
      for k := 0 to |refs|
        invariant ContentsSoFar(doc, refs[..k], old(processed), old(doc.streams), old(Tally()), old(PageState()), old(stats), S)
      {
        ContentsNext(doc, refs, k, old(processed), old(doc.streams), old(Tally()), old(PageState()), old(stats), S);
      }
      assert refs[..|refs|] == refs;
      TotalRemovedAppend(old(rewrites), ReadBytes(old(doc.streams), Fresh(doc, refs, old(processed))));
    }

    /** After the content-stream step has run on each of `done`, from
        recorded keys p0, stream bytes `was`, rewritten contents log0 and
        counters stats0: ContentsDone holds, the rewritten contents grew by
        the bytes of the readable streams the step got past its early
        returns on, and `objects_processed` by the number of keys added. */
    ghost predicate ContentsSoFar(doc: Pdf, done: seq<Ref>, p0: set<string>, was: map<Ref, seq<byte>>,
                                  t0: (set<string>, set<string>, seq<seq<byte>>),
                                  ps0: (set<string>, seq<(Ref, nat)>, nat, nat, nat), stats0: Stats, S: set<Ref>)
      reads this, doc
    {
      && Walking() && PageState() == ps0 && TallyGrows(t0, Tally())
      && Rewritten(doc.streams, was, S)
      && ContentsDone(doc, done, p0, processed, was, doc.streams)
      && rewrites == t0.2 + ReadBytes(was, Fresh(doc, done, p0))
      && stats == stats0.(objectsProcessed := stats0.objectsProcessed + |processed - p0|, boxesRemoved := stats.boxesRemoved)
    }

    /** One turn of the /Contents loop, on refs[k]. */
    method ContentsNext(doc: Pdf, refs: seq<Ref>, k: nat, ghost p0: set<string>, ghost was: map<Ref, seq<byte>>,
                        ghost t0: (set<string>, set<string>, seq<seq<byte>>),
                        ghost ps0: (set<string>, seq<(Ref, nat)>, nat, nat, nat), ghost stats0: Stats, ghost S: set<Ref>)
      requires k < |refs| && refs[k] in S
      requires ContentsSoFar(doc, refs[..k], p0, was, t0, ps0, stats0, S)
      modifies this, doc
      ensures ContentsSoFar(doc, refs[..k + 1], p0, was, t0, ps0, stats0, S)
    {
      ghost var before, p, t := doc.streams, processed, Tally();
      ghost var log0 := t0.2;
      ghost var add := if Visits(doc, refs[k], None, p) && refs[k] in before then [before[refs[k]]] else [];
      ghost var done := ReadBytes(was, Fresh(doc, refs[..k], p0));
      ContentsLogStep(doc, refs, k, p0, p, was, before);
      if Visits(doc, refs[k], None, p) {
        NewKeyCount(p0, p, StreamKey(doc, refs[k], None));
      }
      ProcessContentRef(doc, refs[k], None, S);
      AppendAssoc(log0, done, add);
      ContentsStep(doc, refs, k, p0, p, was, before, processed, doc.streams);
      RewrittenTrans(doc.streams, before, was, S);
      TallyGrowsTrans(t0, t, Tally());
    }

    /** `process_page`: a page already recorded, or one the quick detector
        rejects, only counts as skipped; otherwise it is recorded, its
        /Resources and content streams are walked, and it counts as
        processed. */
    method ProcessPage(doc: Pdf, page: Ref, pageNum: nat, ghost S: set<Ref>)
      requires Valid() && WalkClosed(doc, S) && PageRootsIn(doc, page, S)
      modifies this, doc
      ensures Valid()
      ensures old(processed) <= processed && TallyGrows(old(Tally()), Tally())
      ensures pageLog == old(pageLog) + [(page, pageNum)]
      ensures Rewritten(doc.streams, old(doc.streams), S)
      ensures old(PageRuns(doc, page, pageNum, processed)) ==>
        && PageKey(doc, page, pageNum) in processed
        && pageKeys == old(pageKeys) + {PageKey(doc, page, pageNum)}
        && stats.pagesProcessed == old(stats.pagesProcessed) + 1
        && stats.pagesSkipped == old(stats.pagesSkipped)
        && PageWalked(doc, page, old(processed), processed)
      ensures old(PageRuns(doc, page, pageNum, processed)) && StreamsDistinct(doc) ==>
        forall q | q in ContentRefs(doc, page) && FreshStream(doc, q, old(processed), old(doc.streams)) ::
          RewrittenAtLeastOnce(doc.streams[q], old(doc.streams)[q])
      ensures !old(PageRuns(doc, page, pageNum, processed)) ==>
        && processed == old(processed) && objectKeys == old(objectKeys) && pageKeys == old(pageKeys)
        && doc.streams == old(doc.streams)
        && stats == old(stats).(pagesSkipped := old(stats.pagesSkipped) + 1, quickMatches := stats.quickMatches)
      ensures stats.quickMatches == old(stats.quickMatches) +
        (if PageKey(doc, page, pageNum) !in old(processed) && old(PageVerdict(doc, page)) == Some(Boxes) then 1 else 0)
      ensures FormsDone(doc, old(processed), processed, old(doc.streams), doc.streams)
    {
      RewrittenRefl(doc.streams, S);
      FormsDoneRefl(doc, processed, doc.streams, doc.streams);
      pageLog := pageLog + [(page, pageNum)];
      var pageId := ObjectId(doc.objgen(page), "page_" + Decimal(pageNum) + "_");
      if pageId in processed {
        CountPage(true);
        return;
      }
      var go := ShouldProcessPage(doc, page);
      if !go {
        CountPage(true);
        return;
      }
      RunPage(doc, page, pageNum, pageId, S);
    }

    /** A page that passed both checks of `process_page`: it is recorded,
        walked, and counted as processed. */
    method RunPage(doc: Pdf, page: Ref, pageNum: nat, pageId: string, ghost S: set<Ref>)
      requires Valid() && WalkClosed(doc, S) && PageRootsIn(doc, page, S)
      requires pageId == PageKey(doc, page, pageNum) && pageId !in processed
      modifies this, doc
      ensures Valid()
      ensures old(processed) + {pageId} <= processed && TallyGrows(old(Tally()), Tally())
      ensures pageKeys == old(pageKeys) + {pageId} && pageLog == old(pageLog)
      ensures stats.pagesProcessed == old(stats.pagesProcessed) + 1
      ensures stats.pagesSkipped == old(stats.pagesSkipped) && stats.quickMatches == old(stats.quickMatches)
      ensures Rewritten(doc.streams, old(doc.streams), S)
      ensures PageWalked(doc, page, old(processed), processed)
      ensures StreamsDistinct(doc) ==>
        forall q | q in ContentRefs(doc, page) && FreshStream(doc, q, old(processed), old(doc.streams)) ::
          RewrittenAtLeastOnce(doc.streams[q], old(doc.streams)[q])
      ensures FormsDone(doc, old(processed), processed, old(doc.streams), doc.streams)
    {
      PageKeyTag(doc.objgen(page), pageNum);
      RecordPage(pageId);
      ghost var p1 := processed;
      RewrittenRefl(doc.streams, S);
      OtherTags(doc.objgen(page), pageNum);
      FormsDoneOther(doc, old(processed), p1, doc.streams, doc.streams);
      WalkPage(doc, page, S);
      FormsDoneTrans(doc, old(processed), p1, processed, old(doc.streams), old(doc.streams), doc.streams, S);
      CountPage(false);
      PageKeyFirst(doc, page, pageNum, old(processed), p1, processed, old(doc.streams), doc.streams);
    }

    /** The walk `process_page` makes once the page is recorded: its
        /Resources when they are truthy, then its content streams. */
    method WalkPage(doc: Pdf, page: Ref, ghost S: set<Ref>)
      requires Walking() && WalkClosed(doc, S) && PageRootsIn(doc, page, S)
      modifies this, doc
      ensures Walking()
      ensures old(processed) <= processed
      ensures PageState() == old(PageState()) && TallyGrows(old(Tally()), Tally())
      ensures Rewritten(doc.streams, old(doc.streams), S)
      ensures PageWalked(doc, page, old(processed), processed)
      ensures StreamsDistinct(doc) ==>
        forall q | q in ContentRefs(doc, page) && FreshStream(doc, q, old(processed), old(doc.streams)) ::
          RewrittenAtLeastOnce(doc.streams[q], old(doc.streams)[q])
      ensures FormsDone(doc, old(processed), processed, old(doc.streams), doc.streams)
    {
      RewrittenRefl(doc.streams, S);
      FormsDoneRefl(doc, processed, doc.streams, doc.streams);
      var node := doc.Deref(page);
      var res := Get(node, "/Resources");
      if res.Some? && Truthy(doc.Deref(res.value)) {
        ProcessResources(doc, res.value, S);
      }
      ghost var p2, mid := processed, doc.streams;
      ProcessContents(doc, page, S);
      ContentKeysNotForm(doc, ContentRefs(doc, page));
      FormsDoneOther(doc, p2, processed, mid, doc.streams);
      FormsDoneTrans(doc, old(processed), p2, processed, old(doc.streams), mid, doc.streams, S);
      RewrittenTrans(doc.streams, mid, old(doc.streams), S);
      PageWalkedAfter(doc, page, old(processed), p2, processed);
      PageContentRewritten(doc, page, old(processed), p2, processed, old(doc.streams), mid, doc.streams, S);
    }
  }

  lemma FormWalkedAfter(doc: Pdf, x: Ref, p0: set<string>, p1: set<string>, p2: set<string>, p3: set<string>)
    requires p1 == p0 + {FormKey(doc, x)} && p1 <= p2 <= p3 && "stream_" + FormKey(doc, x) in p3
    requires var res := Get(doc.Deref(x), "/Resources");
      res.Some? && Truthy(doc.Deref(res.value)) ==>
        ResKey(doc, res.value) != FormKey(doc, x) &&
        (ResKey(doc, res.value) !in p1 ==> ResourcesWalked(doc, res.value, p2))
    ensures FormWalked(doc, x, p0, p3)
  {
    var res := Get(doc.Deref(x), "/Resources");
    if res.Some? && Truthy(doc.Deref(res.value)) && ResKey(doc, res.value) !in p0 {
      ResourcesWalkedMono(doc, res.value, p2, p3);
    }
  }

  lemma PageWalkedAfter(doc: Pdf, page: Ref, p0: set<string>, p2: set<string>, p3: set<string>)
    requires p0 <= p2 && p3 == p2 + ContentKeys(doc, ContentRefs(doc, page))
    requires var res := Get(doc.Deref(page), "/Resources");
      res.Some? && Truthy(doc.Deref(res.value)) && ResKey(doc, res.value) !in p0 ==>
        ResourcesWalked(doc, res.value, p2)
    ensures PageWalked(doc, page, p0, p3)
  {
    var res := Get(doc.Deref(page), "/Resources");
    if res.Some? && Truthy(doc.Deref(res.value)) && ResKey(doc, res.value) !in p0 {
      ResourcesWalkedMono(doc, res.value, p2, p3);
    }
  }

  /** Recording the page key before the walk changes neither what the walk
      promises about the page's resources nor which of its content streams
      count as fresh: the page key is neither a resource key nor a plain
      stream key. */
  lemma PageKeyFirst(doc: Pdf, page: Ref, pageNum: nat, p0: set<string>, p1: set<string>, p3: set<string>,
                     was: map<Ref, seq<byte>>, now: map<Ref, seq<byte>>)
    requires p1 == p0 + {PageKey(doc, page, pageNum)} && now.Keys == was.Keys
    requires PageWalked(doc, page, p1, p3)
    requires StreamsDistinct(doc) ==>
      forall q | q in ContentRefs(doc, page) && FreshStream(doc, q, p1, was) :: RewrittenAtLeastOnce(now[q], was[q])
    ensures PageWalked(doc, page, p0, p3)
    ensures StreamsDistinct(doc) ==>
      forall q | q in ContentRefs(doc, page) && FreshStream(doc, q, p0, was) :: RewrittenAtLeastOnce(now[q], was[q])
  {
    var res := Get(doc.Deref(page), "/Resources");
    if res.Some? {
      KeyKindsDiffer(doc.objgen(res.value), doc.objgen(page), pageNum);
    }
    forall q | q in ContentRefs(doc, page) && FreshStream(doc, q, p0, was)
      ensures FreshStream(doc, q, p1, was)
    {
      PageKeyNotStreamKey(doc.objgen(page), doc.objgen(q), pageNum);
    }
  }

  /** The keys a form's walk adds: its own key, what its resources add, and
      its content key; the content key is not among what the resources add. */
  lemma FormKeysAdded(before: set<string>, p1: set<string>, p2: set<string>, after: set<string>, formId: string)
    requires formId !in before && p1 == before + {formId}
    requires IsWalkTag(formId) && !("stream_" <= formId)
    requires var s := "stream_" + formId; IsWalkTag(s) && "stream_" <= s && s[7..] == formId
    requires WalkAdds(p1, p2)
    requires after == p2 || after == p2 + {"stream_" + formId}
    ensures WalkAdds(before, after)
    ensures "stream_" + formId !in before ==> "stream_" + formId !in p2
  {
  }

  /** After the content-stream step has run on each of `done`, starting
      from recorded keys p0 and stream bytes `was`: the recorded keys are
      p0 plus the plain keys of the streams among `done`; a stream that
      changed is one of `done` and was rewritten exactly once; and, when
      distinct streams have distinct objgen pairs, every stream of `done`
      that was readable and not yet recorded was rewritten. */
  ghost predicate ContentsDone(doc: Pdf, done: seq<Ref>, p0: set<string>, p: set<string>,
                               was: map<Ref, seq<byte>>, now: map<Ref, seq<byte>>) {
    && p == p0 + ContentKeys(doc, done)
    && now.Keys == was.Keys
    && (forall q | q in was && now[q] != was[q] ::
          q in done && doc.Deref(q).Stream? && now[q] == RemoveBoxes(was[q]))
    && (StreamsDistinct(doc) ==>
          forall q | q in done && FreshStream(doc, q, p0, was) :: now[q] == RemoveBoxes(was[q]))
  }

  /** The streams among `done`, in order, that the content-stream step
      gets past its two early returns on, starting from recorded keys p0:
      those whose key is new at their turn (see FreshCount). */
  ghost function Fresh(doc: Pdf, done: seq<Ref>, p0: set<string>): seq<Ref>
    decreases |done|
  {
    if done == [] then []
    else
      var init, x := done[..|done| - 1], done[|done| - 1];
      Fresh(doc, init, p0) + if Visits(doc, x, None, p0 + ContentKeys(doc, init)) then [x] else []
  }

  /** The bytes of the readable streams among rs, in order. */
  ghost function ReadBytes(was: map<Ref, seq<byte>>, rs: seq<Ref>): seq<seq<byte>>
    decreases |rs|
  {
    if rs == [] then []
    else
      var x := rs[|rs| - 1];
      ReadBytes(was, rs[..|rs| - 1]) + if x in was then [was[x]] else []
  }

  /** The content-stream steps that get past the early returns are as many
      as the keys that were not yet recorded. */
  lemma {:induction false} FreshCount(doc: Pdf, done: seq<Ref>, p0: set<string>)
    ensures |Fresh(doc, done, p0)| == |ContentKeys(doc, done) - p0|
    decreases |done|
  {
    if done != [] {
      var init, x := done[..|done| - 1], done[|done| - 1];
      assert done == init + [x];
      FreshCount(doc, init, p0);
      FreshSnoc(doc, init, x, p0);
      NewKeysSnoc(doc, init, x, p0);
    }
  }

  lemma FreshSnoc(doc: Pdf, init: seq<Ref>, x: Ref, p0: set<string>)
    ensures |Fresh(doc, init + [x], p0)| ==
      |Fresh(doc, init, p0)| + if Visits(doc, x, None, p0 + ContentKeys(doc, init)) then 1 else 0
  {
    assert (init + [x])[..|init|] == init;
  }

  lemma NewKeysSnoc(doc: Pdf, init: seq<Ref>, x: Ref, p0: set<string>)
    ensures |ContentKeys(doc, init + [x]) - p0| ==
      |ContentKeys(doc, init) - p0| + if Visits(doc, x, None, p0 + ContentKeys(doc, init)) then 1 else 0
  {
    ContentKeysAppend(doc, init, x);
    NewKeyCard(ContentKeys(doc, init), p0, StreamKey(doc, x, None), doc.Deref(x).Stream?);
  }

  lemma NewKeyCard(c: set<string>, p0: set<string>, key: string, add: bool)
    ensures |(c + if add then {key} else {}) - p0| == |c - p0| + if add && key !in p0 + c then 1 else 0
  {
    if add && key !in p0 + c {
      assert (c + {key}) - p0 == (c - p0) + {key};
    } else if add {
      assert (c + {key}) - p0 == c - p0;
    } else {
      assert c + {} == c;
    }
  }

  /** A key not yet recorded adds one to the count of new keys. */
  lemma NewKeyCount(p0: set<string>, p: set<string>, key: string)
    requires p0 <= p && key !in p
    ensures |(p + {key}) - p0| == |p - p0| + 1
  {
    assert (p + {key}) - p0 == (p - p0) + {key};
  }

  /** One more content-stream step, on refs[k], extends the list of
      rewritten contents by its bytes when it gets past the early returns:
      those bytes are still the ones it had before the loop. */
  lemma ContentsLogStep(doc: Pdf, refs: seq<Ref>, k: nat, p0: set<string>, p: set<string>,
                        was: map<Ref, seq<byte>>, now: map<Ref, seq<byte>>)
    requires k < |refs| && ContentsDone(doc, refs[..k], p0, p, was, now)
    ensures var x := refs[k];
      ReadBytes(was, Fresh(doc, refs[..k + 1], p0)) ==
      ReadBytes(was, Fresh(doc, refs[..k], p0)) + if Visits(doc, x, None, p) && x in now then [now[x]] else []
  {
    var x := refs[k];
    assert refs[..k + 1][..k] == refs[..k];
    var f := Fresh(doc, refs[..k], p0);
    if Visits(doc, x, None, p) {
      assert Fresh(doc, refs[..k + 1], p0) == f + [x];
      assert (f + [x])[..|f|] == f;
    } else {
      assert Fresh(doc, refs[..k + 1], p0) == f;
    }
  }

  lemma AppendAssoc<T>(a: seq<T>, b: seq<T>, c: seq<T>)
    ensures (a + b) + c == a + (b + c)
  {
  }

  /** One more content-stream step, on refs[k], keeps ContentsDone. */
  lemma ContentsStep(doc: Pdf, refs: seq<Ref>, k: nat, p0: set<string>, p: set<string>,
                     was: map<Ref, seq<byte>>, now: map<Ref, seq<byte>>, p': set<string>, now': map<Ref, seq<byte>>)
    requires k < |refs| && ContentsDone(doc, refs[..k], p0, p, was, now)
    requires var v := Visits(doc, refs[k], None, p);
      && p' == (if v then p + {StreamKey(doc, refs[k], None)} else p)
      && now' == (if v && refs[k] in now then now[refs[k] := RemoveBoxes(now[refs[k]])] else now)
    ensures ContentsDone(doc, refs[..k + 1], p0, p', was, now')
  {
    assert refs[..k + 1] == refs[..k] + [refs[k]];
    ContentsAppend(doc, refs[..k], refs[k], p0, p, was, now, p', now');
  }

  lemma ContentsAppend(doc: Pdf, done: seq<Ref>, x: Ref, p0: set<string>, p: set<string>,
                       was: map<Ref, seq<byte>>, now: map<Ref, seq<byte>>, p': set<string>, now': map<Ref, seq<byte>>)
    requires ContentsDone(doc, done, p0, p, was, now)
    requires var v := Visits(doc, x, None, p);
      && p' == (if v then p + {StreamKey(doc, x, None)} else p)
      && now' == (if v && x in now then now[x := RemoveBoxes(now[x])] else now)
    ensures ContentsDone(doc, done + [x], p0, p', was, now')
  {
    ContentKeysAppend(doc, done, x);
    if x in done && doc.Deref(x).Stream? {
      assert StreamKey(doc, x, None) in ContentKeys(doc, done);
    }
    ChangedAppend(doc, done, x, was, now, now');
    if StreamsDistinct(doc) {
      FreshAppend(doc, done, x, p0, p, was, now, now');
    }
  }

  /** The changed streams after one more step: those changed before, and
      the new one, which had not changed before. */
  lemma ChangedAppend(doc: Pdf, done: seq<Ref>, x: Ref, was: map<Ref, seq<byte>>, now: map<Ref, seq<byte>>,
                      now': map<Ref, seq<byte>>)
    requires now.Keys == was.Keys
    requires forall q | q in was && now[q] != was[q] :: q in done && doc.Deref(q).Stream? && now[q] == RemoveBoxes(was[q])
    requires now' == now || (doc.Deref(x).Stream? && x !in done && x in now && now' == now[x := RemoveBoxes(now[x])])
    ensures forall q | q in was && now'[q] != was[q] ::
      q in done + [x] && doc.Deref(q).Stream? && now'[q] == RemoveBoxes(was[q])
  {
    forall q | q in was && now'[q] != was[q]
      ensures q in done + [x] && doc.Deref(q).Stream? && now'[q] == RemoveBoxes(was[q])
    {
      if now'[q] == now[q] {
        assert q in done;
      }
    }
  }

  /** A fresh stream of done + [x] has been rewritten once: x because its
      key is not among those recorded, by distinct objgen pairs. */
  lemma FreshAppend(doc: Pdf, done: seq<Ref>, x: Ref, p0: set<string>, p: set<string>,
                    was: map<Ref, seq<byte>>, now: map<Ref, seq<byte>>, now': map<Ref, seq<byte>>)
    requires StreamsDistinct(doc) && now.Keys == was.Keys
    requires p == p0 + ContentKeys(doc, done)
    requires forall q | q in was && now[q] != was[q] :: q in done
    requires forall q | q in done && FreshStream(doc, q, p0, was) :: now[q] == RemoveBoxes(was[q])
    requires var v := Visits(doc, x, None, p);
      now' == (if v && x in now then now[x := RemoveBoxes(now[x])] else now)
    requires x in done && doc.Deref(x).Stream? ==> StreamKey(doc, x, None) in p
    ensures forall q | q in done + [x] && FreshStream(doc, q, p0, was) :: now'[q] == RemoveBoxes(was[q])
  {
    var key := StreamKey(doc, x, None);
    forall q | q in done + [x] && FreshStream(doc, q, p0, was)
      ensures now'[q] == RemoveBoxes(was[q])
    {
      if q == x && key in p && x !in done {
        var y :| y in done && doc.Deref(y).Stream? && StreamKey(doc, y, None) == key;
        SameStreamKey(doc, x, y);
      }
    }
  }

  lemma ContentKeysAppend(doc: Pdf, done: seq<Ref>, x: Ref)
    ensures ContentKeys(doc, done + [x]) ==
      ContentKeys(doc, done) + (if doc.Deref(x).Stream? then {StreamKey(doc, x, None)} else {})
  {
  }

  /** The page's content streams that were fresh when the page started are
      still fresh after its resources are walked, so the content step
      rewrites each of them once more. */
  lemma PageContentRewritten(doc: Pdf, page: Ref, p0: set<string>, p2: set<string>, p3: set<string>,
                             was: map<Ref, seq<byte>>, mid: map<Ref, seq<byte>>, now: map<Ref, seq<byte>>, S: set<Ref>)
    requires WalkAdds(p0, p2)
    requires Rewritten(mid, was, S)
    requires ContentsDone(doc, ContentRefs(doc, page), p2, p3, mid, now)
    ensures StreamsDistinct(doc) ==>
      forall q | q in ContentRefs(doc, page) && FreshStream(doc, q, p0, was) :: RewrittenAtLeastOnce(now[q], was[q])
  {
    if StreamsDistinct(doc) {
      forall q | q in ContentRefs(doc, page) && FreshStream(doc, q, p0, was)
        ensures RewrittenAtLeastOnce(now[q], was[q])
      {
        KeyTags(doc.objgen(q));
        assert FreshStream(doc, q, p2, mid);
        RewrittenOnceMore(now[q], mid[q], was[q]);
      }
    }
  }

  /** A form XObject x whose key a walk recorded, going from recorded keys
      `before` and stream bytes `was` to `after` and `now`: its content key
      is recorded too; and, when distinct streams have distinct objgen
      pairs (so x is the one form with that key), the key of its
      dictionary /Resources is recorded and its content, when readable and
      not recorded before, was rewritten at least once. */
  ghost predicate FormDone(doc: Pdf, x: Ref, before: set<string>, after: set<string>,
                           was: map<Ref, seq<byte>>, now: map<Ref, seq<byte>>) {
    var res := Get(doc.Deref(x), "/Resources");
    && "stream_" + FormKey(doc, x) in after
    && (StreamsDistinct(doc) ==>
          && (res.Some? && Truthy(doc.Deref(res.value)) && doc.Deref(res.value).Dict? ==>
                ResKey(doc, res.value) in after)
          && (x in was && "stream_" + FormKey(doc, x) !in before ==>
                x in now && RewrittenAtLeastOnce(now[x], was[x])))
  }

  /** FormDone for one stream x, and a form content key is recorded only
      along with the form's own key. */
  ghost predicate FormsDoneAt(doc: Pdf, x: Ref, before: set<string>, after: set<string>,
                              was: map<Ref, seq<byte>>, now: map<Ref, seq<byte>>) {
    && ("stream_" + FormKey(doc, x) in after && "stream_" + FormKey(doc, x) !in before ==> FormKey(doc, x) in after)
    && (FormKey(doc, x) in after && FormKey(doc, x) !in before ==> FormDone(doc, x, before, after, was, now))
  }

  /** Every form XObject a walk records is walked: what a walk promises
      about all the forms it reaches through /Resources, at any depth. */
  ghost predicate FormsDone(doc: Pdf, before: set<string>, after: set<string>,
                            was: map<Ref, seq<byte>>, now: map<Ref, seq<byte>>) {
    forall x {:trigger FormsDoneAt(doc, x, before, after, was, now)} | doc.Deref(x).Stream? ::
      FormsDoneAt(doc, x, before, after, was, now)
  }

  /** Keys that are neither form keys nor form content keys. */
  predicate NotFormTag(key: string) {
    !("form_" <= key) && !("stream_form_" <= key)
  }

  lemma FormTags(og: ObjGen)
    ensures "form_" <= ObjectId(og, "form_")
    ensures "stream_form_" <= "stream_" + ObjectId(og, "form_")
    ensures !("form_" <= "stream_" + ObjectId(og, "form_"))
  {
    var f := ObjectId(og, "form_");
    assert f[..5] == "form_";
    assert ("stream_" + f)[..12] == "stream_form_" && ("stream_" + f)[0] == 's';
  }

  /** Resource, page and plain stream keys are not form tags. */
  lemma OtherTags(og: ObjGen, n: nat)
    ensures NotFormTag(ObjectId(og, "res_"))
    ensures NotFormTag(ObjectId(og, "page_" + Decimal(n) + "_"))
    ensures NotFormTag(ObjectId(og, "stream_"))
  {
    assert ObjectId(og, "res_")[0] == 'r';
    assert ObjectId(og, "page_" + Decimal(n) + "_")[0] == 'p';
    var t := ObjectId(og, "stream_");
    assert t[0] == 's' && t[7] == Decimal(og.num)[0];
  }

  lemma ContentKeysNotForm(doc: Pdf, rs: seq<Ref>)
    ensures forall k | k in ContentKeys(doc, rs) :: NotFormTag(k)
  {
    forall k | k in ContentKeys(doc, rs) ensures NotFormTag(k) {
      var r :| r in rs && doc.Deref(r).Stream? && k == StreamKey(doc, r, None);
      OtherTags(doc.objgen(r), 0);
    }
  }

  /** Nothing recorded, nothing promised. */
  lemma FormsDoneRefl(doc: Pdf, p: set<string>, was: map<Ref, seq<byte>>, now: map<Ref, seq<byte>>)
    ensures FormsDone(doc, p, p, was, now)
  {
    forall x | doc.Deref(x).Stream? ensures FormsDoneAt(doc, x, p, p, was, now) {
    }
  }

  /** Recording keys that are not form tags promises nothing about forms. */
  lemma {:induction false} FormsDoneOther(doc: Pdf, p: set<string>, q: set<string>,
                                          was: map<Ref, seq<byte>>, now: map<Ref, seq<byte>>)
    requires forall k | k in q && k !in p :: NotFormTag(k)
    ensures FormsDone(doc, p, q, was, now)
  {
    forall x | doc.Deref(x).Stream? ensures FormsDoneAt(doc, x, p, q, was, now) {
      FormTags(doc.objgen(x));
    }
  }

  lemma RewrittenOnceThenFrom(x: seq<byte>, mid: seq<byte>, y: seq<byte>)
    requires RewrittenFrom(x, mid) && RewrittenAtLeastOnce(mid, y)
    ensures RewrittenAtLeastOnce(x, y)
  {
    var m: nat :| x == Repeat(RemoveBoxes, m, mid);
    var n: nat :| 1 <= n && mid == Repeat(RemoveBoxes, n, y);
    RepeatCompose(RemoveBoxes, m, n, y);
  }

  lemma RewrittenFromThenOnce(x: seq<byte>, mid: seq<byte>, y: seq<byte>)
    requires RewrittenAtLeastOnce(x, mid) && RewrittenFrom(mid, y)
    ensures RewrittenAtLeastOnce(x, y)
  {
    var m: nat :| 1 <= m && x == Repeat(RemoveBoxes, m, mid);
    var n: nat :| mid == Repeat(RemoveBoxes, n, y);
    RepeatCompose(RemoveBoxes, m, n, y);
  }

  /** Two walks in a row: every form either of them records is walked. */
  lemma FormsDoneTrans(doc: Pdf, p0: set<string>, p1: set<string>, p2: set<string>,
                       s0: map<Ref, seq<byte>>, s1: map<Ref, seq<byte>>, s2: map<Ref, seq<byte>>, S: set<Ref>)
    requires p0 <= p1 <= p2
    requires FormsDone(doc, p0, p1, s0, s1) && FormsDone(doc, p1, p2, s1, s2)
    requires Rewritten(s1, s0, S) && Rewritten(s2, s1, S)
    ensures FormsDone(doc, p0, p2, s0, s2)
  {
    forall x | doc.Deref(x).Stream? ensures FormsDoneAt(doc, x, p0, p2, s0, s2) {
      assert FormsDoneAt(doc, x, p0, p1, s0, s1) && FormsDoneAt(doc, x, p1, p2, s1, s2);
      var f := FormKey(doc, x);
      if f in p2 && f !in p0 && StreamsDistinct(doc) && x in s0 && "stream_" + f !in p0 {
        if f in p1 {
          RewrittenOnceThenFrom(s2[x], s1[x], s0[x]);
        } else {
          RewrittenFromThenOnce(s2[x], s1[x], s0[x]);
        }
      }
    }
  }

  /** The walk of one form x, recorded from `before`: its resources' walk
      takes p0 + {its key} to p2 and the streams from `was` to `mid`, then
      its content step takes them to `after` and `now`. */
  lemma FormStepDone(doc: Pdf, x: Ref, before: set<string>, p2: set<string>, after: set<string>,
                     was: map<Ref, seq<byte>>, mid: map<Ref, seq<byte>>, now: map<Ref, seq<byte>>, S: set<Ref>)
    requires doc.Deref(x).Stream? && FormKey(doc, x) !in before && before + {FormKey(doc, x)} <= p2
    requires FormsDone(doc, before + {FormKey(doc, x)}, p2, was, mid)
    requires after == p2 || after == p2 + {"stream_" + FormKey(doc, x)}
    requires Rewritten(mid, was, S) && Rewritten(now, mid, S)
    requires FormDone(doc, x, before, after, was, now)
    ensures FormsDone(doc, before, after, was, now)
  {
    var f := FormKey(doc, x);
    FormTags(doc.objgen(x));
    forall y | doc.Deref(y).Stream? ensures FormsDoneAt(doc, y, before, after, was, now) {
      var g := FormKey(doc, y);
      FormTags(doc.objgen(y));
      assert FormsDoneAt(doc, y, before + {f}, p2, was, mid);
      if g == f {
        if StreamsDistinct(doc) {
          ObjectIdInjective(doc.objgen(y), doc.objgen(x), "form_");
        }
      } else if g in after && g !in before {
        if StreamsDistinct(doc) && y in was && "stream_" + g !in before {
          RewrittenOnceThenFrom(now[y], mid[y], was[y]);
        }
      }
      if "stream_" + g == "stream_" + f {
        assert g == ("stream_" + g)[7..] == ("stream_" + f)[7..] == f;
      }
    }
  }
}
