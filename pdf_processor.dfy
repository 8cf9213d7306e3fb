/**
 * `PDFProcessor`: the page range a run covers and the loop that hands each
 * page of that range to the box remover, reporting progress after each page
 * it could fetch.
 */
module Processor {
  import opened Wrappers
  import opened PdfModel
  import opened BoxRemoval
  import opened Patterns

  /** No counter of `stats` is lower in b than in a. */
  predicate StatsGrow(a: Stats, b: Stats) {
    && a.pagesProcessed <= b.pagesProcessed && a.pagesSkipped <= b.pagesSkipped
    && a.boxesRemoved <= b.boxesRemoved && a.objectsProcessed <= b.objectsProcessed
    && a.quickMatches <= b.quickMatches
  }

  /** Counters that count a growing tally grow with it: `objects_processed`
      as the number of object keys, `boxes_removed` as the boxes in the
      rewritten contents. */
  lemma CountersGrow(t0: (set<string>, set<string>, seq<seq<byte>>), t1: (set<string>, set<string>, seq<seq<byte>>),
                     s0: Stats, s1: Stats)
    requires TallyGrows(t0, t1)
    requires s0.objectsProcessed == |t0.0| && s0.boxesRemoved == TotalRemoved(t0.2)
    requires s1.objectsProcessed == |t1.0| && s1.boxesRemoved == TotalRemoved(t1.2)
    ensures s0.objectsProcessed <= s1.objectsProcessed && s0.boxesRemoved <= s1.boxesRemoved
  {
    SubsetCard(t0.0, t1.0);
    assert t1.2 == t0.2 + t1.2[|t0.2|..];
    TotalRemovedAppend(t0.2, t1.2[|t0.2|..]);
  }

  /** The page range `process_pdf` settles on for a document of `total`
      pages: a missing start is page 1 and a missing end the last page; a
      given start is clamped into 1..total, and a given end into
      start..total. */
  function ClampRange(total: nat, start: Option<int>, end: Option<int>): (r: (nat, int))
    ensures r.0 >= 1
    ensures total >= 1 ==> r.0 <= total && r.1 <= total
    ensures start.None? ==> r.0 == 1
    ensures end.None? ==> r.1 == total
    ensures end.Some? || total >= 1 ==> r.0 <= r.1
  {
    var first := if start.None? then 1 else Max(1, Min(start.value, total));
    var last := if end.None? then total else Max(first, Min(end.value, total));
    (first as nat, last)
  }

  function Min(a: int, b: int): int { if a <= b then a else b }
  function Max(a: int, b: int): int { if a <= b then b else a }

  /** When the requested window [start, end] (with the defaults filled in)
      meets the document, the clamped range covers exactly the pages of
      the document inside that window. */
  lemma ClampKeepsRequestedPages(total: nat, start: Option<int>, end: Option<int>)
    requires total >= 1
    requires Lo(start) <= Hi(end, total) && Lo(start) <= total && Hi(end, total) >= 1
    ensures var r := ClampRange(total, start, end);
      forall p: int :: InRange(p, r.0, r.1) <==> InRange(p, 1, total) && InRange(p, Lo(start), Hi(end, total))
  {
  }

  predicate InRange(p: int, lo: int, hi: int) { lo <= p <= hi }

  /** The requested window with its defaults. */
  function Lo(start: Option<int>): int { if start.None? then 1 else start.value }
  function Hi(end: Option<int>, total: nat): int { if end.None? then total else end.value }

  /** A request inside the document is taken as it is. */
  lemma ClampInRange(total: nat, start: int, end: int)
    requires 1 <= start <= end <= total
    ensures ClampRange(total, Some(start), Some(end)) == (start, end)
  {
  }

  /** Pages 0..10000 of a five-page document become pages 1..5. */
  lemma ClampOversizedRequest()
    ensures ClampRange(5, Some(0), Some(10000)) == (1, 5)
    ensures Reachable(1, 5, 5) == 5
  {
  }

  /** A window wholly past the end of the document becomes its last page. */
  lemma ClampPastEnd(total: nat, start: int, end: Option<int>)
    requires 1 <= total < start
    ensures ClampRange(total, Some(start), end) == (total, total)
  {
  }

  /** A window wholly before page 1 becomes page 1 when an end is given. */
  lemma ClampBeforeStart(total: nat, start: Option<int>, end: int)
    requires total >= 1 && end < 1 && (start.None? || start.value <= end)
    ensures ClampRange(total, start, Some(end)) == (1, 1)
  {
  }

  /** How many of the page numbers first..last the document has: they
      form an unbroken run from `first`, and the number after the run is
      either past `last` or past the end of the document. This is how many
      times the loop gets past `pdf.pages[page_num - 1]`. */
  function Reachable(first: nat, last: int, total: nat): (n: nat)
    requires first >= 1
    ensures n <= total
    ensures n > 0 ==> first + n - 1 <= last && first + n - 1 <= total
    ensures first + n <= last ==> first + n > total
  {
    var top := Min(last, total);
    if top >= first then top - first + 1 else 0
  }

  /** With at least one page, every page number of the clamped range is
      in the document: the loop never takes its IndexError path. */
  lemma ClampedRangeInDocument(total: nat, start: Option<int>, end: Option<int>)
    requires total >= 1
    ensures var r := ClampRange(total, start, end);
      r.0 <= r.1 && Reachable(r.0, r.1, total) == r.1 - r.0 + 1
  {
  }

  /** An empty document: with an end given the range is page 1, which the
      loop fails to fetch; either way no page is reached. */
  lemma ClampEmptyDocument(start: Option<int>, end: Option<int>)
    ensures var r := ClampRange(0, start, end);
      r == (1, if end.None? then 0 else 1) && Reachable(r.0, r.1, 0) == 0
  {
  }

  /** One more page number: the run grows by one exactly when the
      document has that page, and then it ends just before it. */
  lemma ReachableStep(first: nat, pageNum: nat, total: nat)
    requires 1 <= first <= pageNum
    ensures Reachable(first, pageNum, total) ==
      Reachable(first, pageNum - 1, total) + if pageNum <= total then 1 else 0
    ensures pageNum <= total ==> Reachable(first, pageNum - 1, total) == pageNum - first
  {
  }

  /** A report after one more page keeps the reports in step. */
  lemma ReportsSnoc(reports: seq<Report>, n: nat, outOf: int, seen0: nat, st: Stats)
    requires ReportsSoFar(reports, true, n, outOf, seen0) && outOf >= 0 && PagesSeen(st) == seen0 + n + 1
    ensures ReportsSoFar(reports + [Report(n + 1, outOf as nat, st)], true, n + 1, outOf, seen0)
  {
  }

  /** The page loop's bookkeeping once it reaches page number `next`,
      with counters st (s0 at the start), page log `log` and the counters
      each page left, `after`: the n pages it could fetch went through
      `process_page` in order, with one report each when there is a
      callback, holding the counters that page left. */
  predicate RunSoFar(pages: seq<Ref>, first: nat, last: int, next: int, hasCallback: bool, reports: seq<Report>,
                     st: Stats, log: seq<(Ref, nat)>, after: seq<Stats>, s0: Stats, seen0: nat, log0: seq<(Ref, nat)>)
    requires first >= 1
  {
    var n := Reachable(first, next - 1, |pages|);
    && PagesSeen(st) == seen0 + n
    && log == log0 + PageCalls(pages, first, n)
    && |after| == n && StatsChain(s0, after) && st == LastStats(s0, after)
    && ReportsSoFar(reports, hasCallback, n, last - first + 1, seen0)
    && (hasCallback ==> forall i :: 0 <= i < |reports| ==> reports[i].stats == after[i])
  }

  /** The counters after each page of a run that starts at s0 and ends at
      s: none falls from s0, from one page to a later one, or from any page
      to s, and the last page leaves s. */
  predicate StatsRun(s0: Stats, after: seq<Stats>, s: Stats) {
    && StatsGrow(s0, s)
    && (after != [] ==> after[|after| - 1] == s)
    && (forall i :: 0 <= i < |after| ==> StatsGrow(s0, after[i]) && StatsGrow(after[i], s))
    && (forall i, j :: 0 <= i <= j < |after| ==> StatsGrow(after[i], after[j]))
  }

  /** The counters a run has reached: s0 before its first page, and
      afterwards what its last page left. */
  function LastStats(s0: Stats, after: seq<Stats>): Stats {
    if after == [] then s0 else after[|after| - 1]
  }

  /** Page by page, no counter falls from what the run had reached
      before that page. */
  predicate StatsChain(s0: Stats, after: seq<Stats>)
    decreases |after|
  {
    after == [] ||
    (StatsChain(s0, after[..|after| - 1]) && StatsGrow(LastStats(s0, after[..|after| - 1]), after[|after| - 1]))
  }

  /** Growth from each page to the next gives growth between any two pages
      of the run, from its start and to its end. */
  lemma {:induction false} ChainIsRun(s0: Stats, after: seq<Stats>)
    requires StatsChain(s0, after)
    ensures StatsRun(s0, after, LastStats(s0, after))
    decreases |after|
  {
    if after != [] {
      var init := after[..|after| - 1];
      ChainIsRun(s0, init);
      assert after == init + [after[|after| - 1]];
      StatsRunSnoc(s0, init, LastStats(s0, init), after[|after| - 1]);
    }
  }

  /** One more page whose counters grow from s to s'. */
  lemma StatsRunSnoc(s0: Stats, after: seq<Stats>, s: Stats, s': Stats)
    requires StatsRun(s0, after, s) && StatsGrow(s, s')
    ensures StatsRun(s0, after + [s'], s')
  {
    var after' := after + [s'];
    forall i, j | 0 <= i <= j < |after'|
      ensures StatsGrow(after'[i], after'[j])
    {
      if j < |after| {
        assert after'[i] == after[i] && after'[j] == after[j];
      } else if i < |after| {
        assert StatsGrow(after[i], s);
      }
    }
  }

  /** A page the document has: one more `process_page` call, and one more
      report when there is a callback. */
  lemma RunStep(pages: seq<Ref>, first: nat, last: int, pageNum: nat, hasCallback: bool, reports: seq<Report>,
                st: Stats, log: seq<(Ref, nat)>, after: seq<Stats>, st': Stats, log': seq<(Ref, nat)>,
                s0: Stats, seen0: nat, log0: seq<(Ref, nat)>)
    requires 1 <= first <= pageNum <= last && pageNum - 1 < |pages|
    requires RunSoFar(pages, first, last, pageNum, hasCallback, reports, st, log, after, s0, seen0, log0)
    requires PagesSeen(st') == PagesSeen(st) + 1 && StatsGrow(st, st') && log' == log + [(pages[pageNum - 1], pageNum)]
    ensures RunSoFar(pages, first, last, pageNum + 1, hasCallback,
                     if hasCallback then reports + [Report(pageNum - first + 1, last - first + 1, st')] else reports,
                     st', log', after + [st'], s0, seen0, log0)
  {
    ReachableStep(first, pageNum, |pages|);
    PageCallsSnoc(pages, first, pageNum - first);
    assert (after + [st'])[..|after|] == after;
    if hasCallback {
      ReportsSnoc(reports, pageNum - first, last - first + 1, seen0, st');
      var reports' := reports + [Report(pageNum - first + 1, last - first + 1, st')];
      var after' := after + [st'];
      assert forall i :: 0 <= i < |reports'| ==> reports'[i].stats == after'[i];
    }
  }

  /** When the loop stops, it has gone through the whole range. */
  lemma RunDone(pages: seq<Ref>, first: nat, last: int, pageNum: nat, hasCallback: bool, reports: seq<Report>,
                st: Stats, log: seq<(Ref, nat)>, after: seq<Stats>, s0: Stats, seen0: nat, log0: seq<(Ref, nat)>)
    requires 1 <= first <= pageNum && last < pageNum && (pageNum == first || pageNum <= last + 1)
    requires RunSoFar(pages, first, last, pageNum, hasCallback, reports, st, log, after, s0, seen0, log0)
    ensures PagesSeen(st) == seen0 + Reachable(first, last, |pages|)
    ensures log == log0 + PageCalls(pages, first, Reachable(first, last, |pages|))
    ensures |after| == Reachable(first, last, |pages|) && StatsRun(s0, after, st)
    ensures !hasCallback ==> reports == []
    ensures hasCallback ==> |reports| == Reachable(first, last, |pages|)
    ensures hasCallback ==> forall i :: 0 <= i < |reports| ==>
      && reports[i].done == i + 1
      && reports[i].outOf == last - first + 1
      && PagesSeen(reports[i].stats) == seen0 + i + 1
      && reports[i].stats == after[i]
    ensures hasCallback && reports != [] ==> reports[|reports| - 1].stats == st
  {
    assert Reachable(first, pageNum - 1, |pages|) == Reachable(first, last, |pages|);
    ChainIsRun(s0, after);
  }

  /** A page number past the end of the document: IndexError, nothing else
      changes. */
  lemma RunSkip(pages: seq<Ref>, first: nat, last: int, pageNum: nat, hasCallback: bool, reports: seq<Report>,
                st: Stats, log: seq<(Ref, nat)>, after: seq<Stats>, s0: Stats, seen0: nat, log0: seq<(Ref, nat)>)
    requires 1 <= first <= pageNum <= last && pageNum - 1 >= |pages|
    requires RunSoFar(pages, first, last, pageNum, hasCallback, reports, st, log, after, s0, seen0, log0)
    ensures RunSoFar(pages, first, last, pageNum + 1, hasCallback, reports, st, log, after, s0, seen0, log0)
  {
    ReachableStep(first, pageNum, |pages|);
  }

  /** `pages_processed + pages_skipped`: every page `process_page` ran on. */
  function PagesSeen(s: Stats): nat { s.pagesProcessed + s.pagesSkipped }

  /** One call of `progress_callback(progress, stats)`; `progress` is the
      fraction done / outOf. */
  datatype Report = Report(done: nat, outOf: nat, stats: Stats)

  /** Every page of the document has its walk roots in S. */
  ghost predicate PagesRootedIn(doc: Pdf, S: set<Ref>) {
    forall i :: 0 <= i < |doc.pages| ==> PageRootsIn(doc, doc.pages[i], S)
  }

  /** The `process_page` calls of a run over n pages from page number
      `first`: page number first + i on `pages[first + i - 1]`. */
  function PageCalls(pages: seq<Ref>, first: nat, n: nat): (calls: seq<(Ref, nat)>)
    requires 1 <= first && (n > 0 ==> first - 1 + n <= |pages|)
    ensures |calls| == n
    ensures forall i :: 0 <= i < n ==> calls[i] == (pages[first - 1 + i], first + i)
  {
    if n == 0 then [] else PageCalls(pages, first, n - 1) + [(pages[first - 1 + n - 1], first + n - 1)]
  }

  /** One more page extends the calls by that page. */
  lemma PageCallsSnoc(pages: seq<Ref>, first: nat, n: nat)
    requires 1 <= first && first + n <= |pages|
    ensures PageCalls(pages, first, n + 1) == PageCalls(pages, first, n) + [(pages[first - 1 + n], first + n)]
  {
  }

  /** The reports after n pages of a run over outOf page numbers, from a
      count of seen0 pages: one per page when there is a callback, each
      with its position and the page count it saw; none otherwise. */
  predicate ReportsSoFar(reports: seq<Report>, hasCallback: bool, n: nat, outOf: int, seen0: nat) {
    if hasCallback then
      |reports| == n &&
      forall i :: 0 <= i < |reports| ==>
        reports[i].done == i + 1 && reports[i].outOf == outOf && PagesSeen(reports[i].stats) == seen0 + i + 1
    else reports == []
  }

  class PdfProcessor {
    const boxRemover: BoxRemover
    /** The box remover's counters as each `process_page` call of the
        current run left them: what each progress callback is shown. */
    ghost var pageStats: seq<Stats>

    constructor ()
      ensures fresh(boxRemover)
      ensures boxRemover.Valid() && boxRemover.processed == {} && boxRemover.stats == EmptyStats
      ensures pageStats == []
    {
      boxRemover := new BoxRemover();
      pageStats := [];
    }

    /** One iteration of the page loop on a page the document has: the box
        remover sees one more page, `pdf.pages[page_num - 1]`, and only
        streams in S are rewritten; nothing recorded is dropped and no
        counter falls. */
    method ProcessOnePage(doc: Pdf, pageNum: nat, ghost S: set<Ref>)
      requires 1 <= pageNum <= |doc.pages|
      requires boxRemover.Valid() && WalkClosed(doc, S) && PagesRootedIn(doc, S)
      modifies this, boxRemover, doc
      ensures boxRemover.Valid()
      ensures old(boxRemover.processed) <= boxRemover.processed
      ensures TallyGrows(old(boxRemover.Tally()), boxRemover.Tally())
      ensures StatsGrow(old(boxRemover.stats), boxRemover.stats)
      ensures Rewritten(doc.streams, old(doc.streams), S)
      ensures PagesSeen(boxRemover.stats) == old(PagesSeen(boxRemover.stats)) + 1
      ensures boxRemover.pageLog == old(boxRemover.pageLog) + [(doc.pages[pageNum - 1], pageNum)]
      ensures pageStats == old(pageStats) + [boxRemover.stats]
      ensures FormsDone(doc, old(boxRemover.processed), boxRemover.processed, old(doc.streams), doc.streams)
    {
      boxRemover.ProcessPage(doc, doc.pages[pageNum - 1], pageNum, S);
      CountersGrow(old(boxRemover.Tally()), boxRemover.Tally(), old(boxRemover.stats), boxRemover.stats);
      pageStats := pageStats + [boxRemover.stats];
    }

    /** `_process_pages`: page numbers first..last in turn; a number past
        the end of the document raises IndexError, which only skips it;
        every other page goes through `process_page` and then, when a
        callback is given, a progress report with the counters as that page
        left them. The box remover's state carries over from earlier runs:
        no key is dropped and no counter falls. */
    method ProcessPages(doc: Pdf, first: nat, last: int, hasCallback: bool, ghost S: set<Ref>)
      returns (reports: seq<Report>)
      requires 1 <= first
      requires boxRemover.Valid() && WalkClosed(doc, S) && PagesRootedIn(doc, S)
      modifies this, boxRemover, doc
      ensures boxRemover.Valid()
      ensures old(boxRemover.processed) <= boxRemover.processed
      ensures TallyGrows(old(boxRemover.Tally()), boxRemover.Tally())
      ensures Rewritten(doc.streams, old(doc.streams), S)
      ensures PagesSeen(boxRemover.stats) == old(PagesSeen(boxRemover.stats)) + Reachable(first, last, |doc.pages|)
      ensures boxRemover.pageLog == old(boxRemover.pageLog) + PageCalls(doc.pages, first, Reachable(first, last, |doc.pages|))
      ensures |pageStats| == Reachable(first, last, |doc.pages|) && StatsRun(old(boxRemover.stats), pageStats, boxRemover.stats)
      ensures !hasCallback ==> reports == []
      ensures hasCallback ==> |reports| == Reachable(first, last, |doc.pages|)
      ensures hasCallback ==> forall i :: 0 <= i < |reports| ==>
        && reports[i].done == i + 1
        && reports[i].outOf == last - first + 1
        && PagesSeen(reports[i].stats) == old(PagesSeen(boxRemover.stats)) + i + 1
        && reports[i].stats == pageStats[i]
      ensures hasCallback && reports != [] ==> reports[|reports| - 1].stats == boxRemover.stats
      ensures FormsDone(doc, old(boxRemover.processed), boxRemover.processed, old(doc.streams), doc.streams)
    {
      FormsDoneRefl(doc, boxRemover.processed, doc.streams, doc.streams);
      RewrittenRefl(doc.streams, S);
      pageStats := [];
      ghost var seen0, log0 := PagesSeen(boxRemover.stats), boxRemover.pageLog;
      reports := RunPages(doc, first, last, hasCallback, old(boxRemover.processed),
                          old(boxRemover.Tally()), old(boxRemover.stats), old(doc.streams), seen0, log0, S);
      RunDone(doc.pages, first, last, Max(first, last + 1), hasCallback, reports, boxRemover.stats, boxRemover.pageLog,
              pageStats, old(boxRemover.stats), seen0, log0);
    }

    /** The loop of `_process_pages` over page numbers first..last, from a
        state where nothing of the run has happened yet: it ends past
        `last` with every page it could fetch processed and reported. */
    method RunPages(doc: Pdf, first: nat, last: int, hasCallback: bool,
                    ghost p0: set<string>, ghost t0: (set<string>, set<string>, seq<seq<byte>>), ghost s0: Stats,
                    ghost was: map<Ref, seq<byte>>, ghost seen0: nat, ghost log0: seq<(Ref, nat)>, ghost S: set<Ref>)
      returns (reports: seq<Report>)
      requires 1 <= first
      requires WalkClosed(doc, S) && PagesRootedIn(doc, S)
      requires PagesSoFar(doc, first, last, first, hasCallback, [], p0, t0, s0, was, seen0, log0, S)
      modifies this, boxRemover, doc
      ensures PagesSoFar(doc, first, last, Max(first, last + 1), hasCallback, reports, p0, t0, s0, was, seen0, log0, S)
    {
      reports := [];
      var pageNum := first;
      while pageNum <= last
        invariant first <= pageNum && (pageNum == first || pageNum <= last + 1)
        invariant PagesSoFar(doc, first, last, pageNum, hasCallback, reports, p0, t0, s0, was, seen0, log0, S)
        decreases last - pageNum
      {
        reports := PageStep(doc, first, last, pageNum, hasCallback, reports, p0, t0, s0, was, seen0, log0, S);
        pageNum := pageNum + 1;
      }
    }

    /** What the page loop has done once it reaches page number `next`:
        the pages it could fetch among first..next - 1 went through
        `process_page` in order, with one report each when there is a
        callback, holding the counters that page left; the keys p0 and
        the tally t0 of the start are kept (`TallyGrows`, with the log of
        rewritten contents extended as a prefix), and no counter has fallen
        below s0. */
    ghost predicate PagesSoFar(doc: Pdf, first: nat, last: int, next: int, hasCallback: bool, reports: seq<Report>,
                               p0: set<string>, t0: (set<string>, set<string>, seq<seq<byte>>), s0: Stats,
                               was: map<Ref, seq<byte>>, seen0: nat, log0: seq<(Ref, nat)>, S: set<Ref>)
      requires first >= 1
      reads this, boxRemover, doc
    {
      && boxRemover.Valid()
      && p0 <= boxRemover.processed
      && t0.0 <= boxRemover.objectKeys && t0.1 <= boxRemover.resKeys
      && |t0.2| <= |boxRemover.rewrites| && boxRemover.rewrites[..|t0.2|] == t0.2
      && Rewritten(doc.streams, was, S)
      && FormsDone(doc, p0, boxRemover.processed, was, doc.streams)
      && RunSoFar(doc.pages, first, last, next, hasCallback, reports, boxRemover.stats, boxRemover.pageLog,
                  pageStats, s0, seen0, log0)
    }

    /** One turn of the page loop on page number pageNum: a number past
        the end of the document raises IndexError and is skipped; any other
        page goes through `process_page`, followed by a report when there is
        a callback. */
    method PageStep(doc: Pdf, first: nat, last: int, pageNum: nat, hasCallback: bool, reports: seq<Report>,
                    ghost p0: set<string>, ghost t0: (set<string>, set<string>, seq<seq<byte>>), ghost s0: Stats,
                    ghost was: map<Ref, seq<byte>>, ghost seen0: nat, ghost log0: seq<(Ref, nat)>, ghost S: set<Ref>)
      returns (reports': seq<Report>)
      requires 1 <= first <= pageNum <= last
      requires WalkClosed(doc, S) && PagesRootedIn(doc, S)
      requires PagesSoFar(doc, first, last, pageNum, hasCallback, reports, p0, t0, s0, was, seen0, log0, S)
      modifies this, boxRemover, doc
      ensures PagesSoFar(doc, first, last, pageNum + 1, hasCallback, reports', p0, t0, s0, was, seen0, log0, S)
    {
      ghost var st, log, after := boxRemover.stats, boxRemover.pageLog, pageStats;
      reports' := reports;
      if pageNum - 1 < |doc.pages| {
        ghost var before, p, t := doc.streams, boxRemover.processed, boxRemover.Tally();
        ProcessOnePage(doc, pageNum, S);
        FormsDoneTrans(doc, p0, p, boxRemover.processed, was, before, doc.streams, S);
        RewrittenTrans(doc.streams, before, was, S);
        TallyGrowsTrans(t0, t, boxRemover.Tally());
        if hasCallback {
          reports' := reports + [Report(pageNum - first + 1, last - first + 1, boxRemover.stats)];
        }
        RunStep(doc.pages, first, last, pageNum, hasCallback, reports, st, log, after, boxRemover.stats,
                boxRemover.pageLog, s0, seen0, log0);
      } else {
        RunSkip(doc.pages, first, last, pageNum, hasCallback, reports, st, log, after, s0, seen0, log0);
      }
    }

    /** `process_pdf` on an opened document: clamp the requested range to
        the document and process it. With at least one page, every page of
        the range is reached, in order, and the last report says the run is
        complete; the box remover keeps its state from earlier runs. */
    method ProcessPdf(doc: Pdf, start: Option<int>, end: Option<int>, hasCallback: bool, ghost S: set<Ref>)
      returns (reports: seq<Report>)
      requires boxRemover.Valid() && WalkClosed(doc, S) && PagesRootedIn(doc, S)
      modifies this, boxRemover, doc
      ensures boxRemover.Valid()
      ensures old(boxRemover.processed) <= boxRemover.processed
      ensures TallyGrows(old(boxRemover.Tally()), boxRemover.Tally()) && StatsGrow(old(boxRemover.stats), boxRemover.stats)
      ensures Rewritten(doc.streams, old(doc.streams), S)
      ensures FormsDone(doc, old(boxRemover.processed), boxRemover.processed, old(doc.streams), doc.streams)
      ensures var r := ClampRange(|doc.pages|, start, end);
        && PagesSeen(boxRemover.stats) == old(PagesSeen(boxRemover.stats)) + Reachable(r.0, r.1, |doc.pages|)
        && boxRemover.pageLog == old(boxRemover.pageLog) + PageCalls(doc.pages, r.0, Reachable(r.0, r.1, |doc.pages|))
        && |pageStats| == Reachable(r.0, r.1, |doc.pages|)
      ensures StatsRun(old(boxRemover.stats), pageStats, boxRemover.stats)
      ensures |doc.pages| == 0 ==> reports == [] && boxRemover.pageLog == old(boxRemover.pageLog)
      ensures hasCallback ==> var r := ClampRange(|doc.pages|, start, end);
        && |reports| == Reachable(r.0, r.1, |doc.pages|)
        && forall i :: 0 <= i < |reports| ==>
             reports[i].done == i + 1 && reports[i].outOf == r.1 - r.0 + 1 && reports[i].stats == pageStats[i]
      ensures hasCallback && |doc.pages| >= 1 ==>
        reports != [] && reports[|reports| - 1].done == reports[|reports| - 1].outOf
    {
      var r := ClampRange(|doc.pages|, start, end);
      reports := ProcessPages(doc, r.0, r.1, hasCallback, S);
      if |doc.pages| >= 1 {
        ClampedRangeInDocument(|doc.pages|, start, end);
      }
    }
  }
}
