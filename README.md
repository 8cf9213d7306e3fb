# PDF box eraser: a Dafny model of the box-removal engine

This project models the core of the PDF box eraser: the `BoxRemover` class
and the page-range driver of `PDFProcessor`.

- **Content rewriter.** `remove_boxes_from_content` decodes a content stream
  as Latin-1. It deletes every match of the six `BOX_PATTERNS`, in list
  order, and counts the matches in `boxes_removed`. Latin-1 maps bytes to
  characters one to one, so the model works on bytes directly. Each pattern
  is a chain of literals and greedy class runs, matched by a small greedy
  matcher (`Patterns.MatchAt`). That matcher is proved equal to the
  backtracking regular-expression reading of the pattern. `re.findall` and
  `re.sub(…, "")` are modelled as the leftmost non-overlapping matches
  (`Substitution.FindAll`) and the text between them (`Substitution.Substitute`).
- **Whitespace classes.** There are two, and they differ. The rewrite runs
  on decoded text, where `\s` also accepts 0x1C–0x1F, 0x85 and 0xA0. The
  quick detector runs on bytes, where `\s` accepts only 0x09–0x0D and 0x20.
- **Quick detector.** `_has_box_patterns`, `_should_process_stream` and
  `_should_process_page` decide whether a page is worth walking, and count
  `quick_matches`. A stream that cannot be read passes, to be safe.
- **Object-graph walk.** `process_page`, `_process_resources`,
  `_process_form_xobject` and `process_content_stream` walk a page.
  - The path goes from the page's /Resources to form-named /Form XObjects
    and to ExtGState soft masks, then to each form's own resources and
    content, and finally to the page's /Contents.
  - Each object is recorded under a key built from a tag and its
    (number, generation) pair, and visited at most once.
  - The document is an immutable heap of objects. The stream bytes are its
    only mutable state (`PdfModel.Pdf`).
  - The walk is proved to terminate on cyclic and shared graphs. The
    measure is the number of resource and form keys not yet recorded.
- **Page-range driver.** `process_pdf` clamps the requested range, and
  `_process_pages` runs the page loop with its progress reports.

Several properties are proved about what a run does:
- only streams reachable from the walked pages change;
- each change is some number of applications of the rewrite;
- the rewrite only deletes bytes;
- every form XObject a walk records, at any depth, has its content key
  recorded too; when distinct streams have distinct (number, generation)
  pairs, its content is also rewritten when it was new;
- between pages, `objects_processed` is the number of recorded keys that are
  neither resource nor page keys, `boxes_removed` is the number of boxes in
  the contents rewritten since the counters were last zeroed, and
  `pages_processed` is the number of recorded page keys;
- across the pages of a run, and from one run to the next, no recorded key
  is dropped and none of the five counters falls; each progress report
  carries the counters as its page left them.

Four behaviours of the code that a reader might not expect are proved,
three of them with concrete inputs:

- `Rewriter.RewriteNotIdempotent`. The rewrite is not idempotent:
  deleting `re S` from `rre Se S` splices a new `re S` together.
- `Rewriter.BoxOnlyFillKeepsOperands`. A box-only fill `0 0 100 200 re f`
  keeps its operands `0 0 100 200 `, so the result is not empty or
  whitespace-only.
- `Rewriter.DetectorMissesNonAsciiSpace`. The quick detector can skip a
  stream that the rewrite would change (`re<NBSP>S`). Detector soundness
  (`Rewriter.DetectorSound`) holds when the whitespace inside every
  `re…op` occurrence is ASCII.
- `BoxRemoval.BoxRemover.WalkExtGStates`. The /SMask of a graphics state is
  walked only when it is a stream. ISO 32000-1 (sections 8.4.5 and
  11.6.5.2) makes it a soft-mask dictionary, whose /G names the group
  form XObject, or the name /None. So on a conforming file the ExtGState
  loop records nothing, and the groups of soft masks are never cleaned.

Modules, one per file:
- `Wrappers`: `Option`.
- `Patterns`: byte classes, pattern elements, the greedy matcher and the
  pattern catalog.
- `Substitution`: `findall` and `sub`.
- `Rewriter`: the rewrite and the quick patterns.
- `PdfModel`: the heap and object ids.
- `BoxRemoval`: the `BoxRemover` class and the walk.
- `Processor`: the `PDFProcessor` class.

## Model

| member | source | states |
|---|---|---|
| Patterns.RunEnd | pdf_box_eraser/core/box_remover.py:19 | a greedy class run (`\s+`, `[0-9.]+`) from i ends at the first byte outside the class, with every byte before it inside |
| Patterns.RunEndUnique | pdf_box_eraser/core/box_remover.py:19 | any end point with all bytes before it in the class and the next byte outside it is the run's end |
| Patterns.MatchAt | pdf_box_eraser/core/box_remover.py:17-30 | a match of pattern p starting at i ends at or after i + \|p\| and within the text |
| Patterns.MatchAtIsRegexMatch | pdf_box_eraser/core/box_remover.py:17-30 | for patterns whose runs are followed by disjoint elements, the greedy match from i ends at j iff the regular-expression semantics (backtracking over run lengths) matches s[i..j] |
| Patterns.PlainBoxSafe | pdf_box_eraser/core/box_remover.py:19 | `re\s+[SsWnfFbB]` has at least four elements and needs no backtracking |
| Patterns.StrokeColourBoxSafe | pdf_box_eraser/core/box_remover.py:21 | the stroke-colour pattern has at least four elements and needs no backtracking |
| Patterns.FillColourBoxSafe | pdf_box_eraser/core/box_remover.py:23 | the fill-colour pattern has at least four elements and needs no backtracking |
| Patterns.SavedBoxSafe | pdf_box_eraser/core/box_remover.py:25 | the `q`-prefixed pattern has at least four elements and needs no backtracking |
| Patterns.TransformedBoxSafe | pdf_box_eraser/core/box_remover.py:27 | the `cm` pattern has at least four elements and needs no backtracking |
| Patterns.GraphicsStateBoxSafe | pdf_box_eraser/core/box_remover.py:29 | the `q GS` pattern has at least four elements and needs no backtracking |
| Patterns.BoxPatternsWellFormed | pdf_box_eraser/core/box_remover.py:17-30 | every BOX_PATTERNS entry matches at least four bytes and needs no backtracking |
| Patterns.BoxPatternsEndInBasic | pdf_box_eraser/core/box_remover.py:17-30 | every BOX_PATTERNS entry is some prefix followed by the basic `re\s+[SsWnfFbB]` |
| Substitution.FindAllOrdered | pdf_box_eraser/core/box_remover.py:396 | the spans `findall` reports are in order, non-overlapping and inside the text |
| Substitution.FindAllAreMatches | pdf_box_eraser/core/box_remover.py:396 | each reported span is a match of the pattern |
| Substitution.FindAllMissesNothing | pdf_box_eraser/core/box_remover.py:396 | no match starts at a position outside the reported spans |
| Substitution.FindAllIsLeftmost | pdf_box_eraser/core/box_remover.py:396 | the spans are the leftmost non-overlapping matches, as Python's scanner defines them |
| Substitution.LeftmostMatchesUnique | pdf_box_eraser/core/box_remover.py:396 | any span list satisfying that definition equals `findall`'s, so the definition fixes the result |
| Substitution.SpliceLength | pdf_box_eraser/core/box_remover.py:399 | cutting ordered spans out of a text shortens it by exactly their total length |
| Substitution.SpliceKeepsUncovered | pdf_box_eraser/core/box_remover.py:399 | cutting spans out keeps exactly the bytes at the uncovered positions, in order |
| Substitution.SubstituteKeepsUnmatched | pdf_box_eraser/core/box_remover.py:399 | `sub(p, "", s)` is s restricted to the positions outside every match, in increasing order |
| Substitution.CoveredLengthOfMatches | pdf_box_eraser/core/box_remover.py:396-399 | the matches cover at least \|p\| bytes each |
| Substitution.SubstituteShrinks | pdf_box_eraser/core/box_remover.py:396-399 | `sub` shortens the text by at least \|p\| per match, and leaves it unchanged iff `findall` found nothing |
| Substitution.SubstituteIsSubsequence | pdf_box_eraser/core/box_remover.py:399 | the result of `sub` is a subsequence of its input |
| Substitution.SubsequenceTrans | pdf_box_eraser/core/box_remover.py:394-400 | a subsequence of a subsequence is a subsequence, so the pattern passes compose |
| Rewriter.ApplyPatternsShrinks | pdf_box_eraser/core/box_remover.py:392-403 | applying patterns of at least four elements in order deletes at least four bytes per counted match; the text is unchanged iff nothing was counted |
| Rewriter.ApplyPatternsSubsequence | pdf_box_eraser/core/box_remover.py:392-403 | applying the patterns in order leaves a subsequence of the input |
| Rewriter.RemoveBoxesDeletes | pdf_box_eraser/core/box_remover.py:385-411 | the result is the in-order pattern passes; it equals the input iff no box was counted; it is strictly shorter iff some box was; it loses at least four bytes per box; it is a subsequence of the input |
| Rewriter.RemoveBoxesAlwaysDeletes | pdf_box_eraser/core/box_remover.py:385-411 | on every input the rewrite only deletes bytes and never lengthens |
| Rewriter.BoxMatchContainsBasic | pdf_box_eraser/core/box_remover.py:17-30 | any text one of the BOX_PATTERNS matches contains the basic pattern |
| Rewriter.RemovalNeedsBasic | pdf_box_eraser/core/box_remover.py:392-400 | if any pattern pass counts a match, the original text contains the basic pattern |
| Rewriter.NoBasicNoChange | pdf_box_eraser/core/box_remover.py:385-411 | a text without `re<ws>op` is returned unchanged and counts no box |
| Rewriter.QuickSearchIsBasic | pdf_box_eraser/core/box_remover.py:33-37 | some quick pattern (basic, styled, text) occurs iff the basic one does |
| Rewriter.DetectorSound | pdf_box_eraser/core/box_remover.py:316-340 | a stream the rewrite changes is flagged by the quick detector, provided the whitespace run inside each of its `re…op` occurrences is ASCII |
| Rewriter.DetectorMissesNonAsciiSpace | pdf_box_eraser/core/box_remover.py:34 | `re<NBSP>S` is changed by the rewrite (str-mode `\s`) but not flagged by the detector (bytes-mode `\s`) |
| Rewriter.ShortTextNoMatch | pdf_box_eraser/core/box_remover.py:396-399 | a pattern longer than the text finds nothing and leaves it alone |
| Rewriter.RewriteOfShortRest | pdf_box_eraser/core/box_remover.py:21-29 | patterns 2 to 6 need at least 13 bytes, and leave shorter text alone |
| Rewriter.BareBoxRemoved | pdf_box_eraser/core/box_remover.py:19 | `re<ws>S` with any str-mode whitespace byte is deleted whole and counted once |
| Rewriter.BoxOnlyFillKeepsOperands | pdf_box_eraser/core/box_remover.py:385-411 | `0 0 100 200 re f` becomes `0 0 100 200 ` with one box counted |
| Rewriter.RewriteNotIdempotent | pdf_box_eraser/core/box_remover.py:392-403 | on `rre Se S` one run gives `re S`, and a second run changes that again |
| PdfModel.Lookup | pdf_box_eraser/core/box_remover.py:188 | `d.get(key)` is None iff no entry has the key, and otherwise is the value of an entry with that key |
| PdfModel.Get | pdf_box_eraser/core/box_remover.py:206 | only dictionaries and stream dictionaries answer `get` |
| PdfModel.Pdf.Deref | pdf_box_eraser/core/box_remover.py:133-148 | a reference in the heap yields its heap object; any other reference reads as null |
| PdfModel.Decimal | pdf_box_eraser/core/box_remover.py:306 | `f"{n}"` of a natural number is a non-empty string of digits |
| PdfModel.DecimalInjective | pdf_box_eraser/core/box_remover.py:306 | different numbers print differently |
| PdfModel.ObjectIdInjective | pdf_box_eraser/core/box_remover.py:301-306 | under one prefix, two keys are equal iff the (number, generation) pairs are |
| BoxRemoval.MeasureDrops | pdf_box_eraser/core/box_remover.py:182-185 | recording a new resource or form key strictly lowers the count of unrecorded keys, which bounds the recursion |
| BoxRemoval.RewrittenOnlyDeletes | pdf_box_eraser/core/box_remover.py:84 | after any walk every stream is a subsequence of its old bytes and no longer than them |
| BoxRemoval.FirstPassingIsAny | pdf_box_eraser/core/box_remover.py:377 | the short-circuit scan over the content streams finds a verdict iff some stream passes, and the verdict found passes |
| BoxRemoval.PageGateIsAny | pdf_box_eraser/core/box_remover.py:361-382 | a page passes the gate iff one of its own content streams is unreadable or shows a quick pattern |
| BoxRemoval.PageGateSound | pdf_box_eraser/core/box_remover.py:361-382 | a page with a readable content stream that the rewrite would change passes the gate, provided that stream's `re…op` occurrences have ASCII whitespace runs |
| BoxRemoval.TotalRemovedAppend | pdf_box_eraser/core/box_remover.py:392-403 | the boxes counted over two runs of rewrites add up, which is how `boxes_removed` accumulates across content streams |
| BoxRemoval.PartitionCount | pdf_box_eraser/core/box_remover.py:75-76 | the keys counted in `objects_processed` are exactly the recorded keys that are neither resource keys (line 184) nor page keys (line 111) |
| BoxRemoval.FreshCount | pdf_box_eraser/core/box_remover.py:121-128 | the content streams the /Contents loop gets past the early returns on are as many as the plain keys it adds, so `objects_processed` rises by that number |
| BoxRemoval.FormsDoneTrans | pdf_box_eraser/core/box_remover.py:173-267 | two walks in a row: every form either of them records has its content key recorded and, when distinct streams have distinct (number, generation) pairs, its /Resources key recorded and its content rewritten at least once when it was new and readable |
| BoxRemoval.FormStepDone | pdf_box_eraser/core/box_remover.py:244-267 | a form whose resources' walk walked every form it recorded, and whose content was then processed, leaves every form recorded since before its own key walked in the sense of `FormsDone`: content key recorded and, when distinct streams have distinct (number, generation) pairs, /Resources key recorded and new readable content rewritten at least once |
| BoxRemoval.BoxRemover.constructor | pdf_box_eraser/core/box_remover.py:39-52 | a new remover has no recorded keys and five zero counters |
| BoxRemoval.BoxRemover.ResetState | pdf_box_eraser/core/box_remover.py:54-57 | `reset_state` empties `processed_objects` and zeroes all five counters |
| BoxRemoval.BoxRemover.RemoveBoxesFromContent | pdf_box_eraser/core/box_remover.py:385-415 | the loop over the patterns returns the rewrite of its input and adds the per-pattern `findall` counts to `boxes_removed`; nothing else changes |
| BoxRemoval.BoxRemover.HasBoxPatterns | pdf_box_eraser/core/box_remover.py:316-340 | the result is "the basic quick pattern occurs"; `quick_matches` rises by one exactly when the result is true |
| BoxRemoval.BoxRemover.ShouldProcessStream | pdf_box_eraser/core/box_remover.py:342-359 | a non-stream fails, an unreadable stream passes, and a readable one passes iff a quick pattern occurs; `quick_matches` rises only in that last case |
| BoxRemoval.BoxRemover.ShouldProcessPage | pdf_box_eraser/core/box_remover.py:361-382 | the result is the page verdict over its /Contents; `quick_matches` rises at most once per page |
| BoxRemoval.BoxRemover.RecordObject | pdf_box_eraser/core/box_remover.py:75-76 | a new form or content-stream key is recorded as an object key and `objects_processed` rises by one, keeping it equal to the number of object keys |
| BoxRemoval.BoxRemover.RecordResources | pdf_box_eraser/core/box_remover.py:184 | a new resource key is recorded as a resource key; no counter changes |
| BoxRemoval.BoxRemover.RecordPage | pdf_box_eraser/core/box_remover.py:111 | a new page key is recorded as a page key; no counter changes until the page is done |
| BoxRemoval.BoxRemover.CountPage | pdf_box_eraser/core/box_remover.py:101-108 | exactly one of `pages_skipped` and `pages_processed` rises by one; nothing else changes |
| BoxRemoval.BoxRemover.ProcessContentStream | pdf_box_eraser/core/box_remover.py:60-88 | a non-stream or already recorded key changes nothing; otherwise the key is recorded as an object key and `objects_processed` rises by one; an unreadable stream stays as it is; a readable one adds the boxes of its bytes to `boxes_removed` (and its bytes to the rewrite log) and is written back only if the rewrite changed it (the identical copy at lines 270-298 is the same member) |
| BoxRemoval.BoxRemover.ProcessContentRef | pdf_box_eraser/core/box_remover.py:124-128 | the exact effect of one content-stream step: for a stream whose key is not yet recorded, the key is recorded as an object key, `objects_processed` rises by one, and, when the stream is readable, `boxes_removed` rises by the boxes in its old bytes and its bytes become their rewrite; otherwise keys, counters and bytes are unchanged; the page state is untouched and only streams of the reachable set change |
| BoxRemoval.BoxRemover.ProcessResources | pdf_box_eraser/core/box_remover.py:173-242 | on the first visit of a dictionary, its `res_` key is recorded as a resource key (not counted in `objects_processed`), and so are the `form_` key of each /Fm or /FXX entry of /XObject that is a /Form stream and the `form_` key of each stream /SMask of an /ExtGState dictionary; every form the walk records, at any depth, is walked (`FormsDone`: its content key recorded, and with distinct objgen pairs its dictionary /Resources recorded and its fresh readable content rewritten); only resource, form and form-content keys are added; `objects_processed` and `boxes_removed` only grow; a non-dictionary or a recorded key changes nothing; only reachable streams are rewritten; page state is untouched |
| BoxRemoval.BoxRemover.WalkXObjects | pdf_box_eraser/core/box_remover.py:187-223 | after the /XObject loop, the `form_` key of every /Fm or /FXX entry that is a /Form stream is recorded, and every form recorded during the loop is walked (`FormsDone`); only walk keys are added; counters only grow; page state is untouched |
| BoxRemoval.BoxRemover.WalkExtGStates | pdf_box_eraser/core/box_remover.py:225-242 | after the /ExtGState loop, the `form_` key of the /SMask stream of every graphics-state dictionary is recorded, and every form recorded during the loop is walked (`FormsDone`); when no /SMask is a stream (a soft-mask dictionary or /None), nothing is recorded and no stream changes; only walk keys are added; counters only grow; page state is untouched |
| BoxRemoval.BoxRemover.ProcessForm | pdf_box_eraser/core/box_remover.py:244-267 | on the first visit of a form stream, its `form_` key is recorded as an object key (counted in `objects_processed`) and its `stream_form_` content key is recorded; its /Resources are walked when they were new; its content, when readable and its content key was new, is rewritten at least once; every form recorded meanwhile, at any depth, is walked (`FormsDone`); a non-stream or a recorded key changes nothing |
| BoxRemoval.BoxRemover.WalkForm | pdf_box_eraser/core/box_remover.py:260-267 | once a form's key is recorded: its content key is recorded, its /Resources are walked when they were new, its readable content is rewritten at least once when its content key was new, and every form recorded from before its key, this one included, is walked (`FormsDone`); only walk keys are added |
| BoxRemoval.BoxRemover.ProcessContents | pdf_box_eraser/core/box_remover.py:121-128 | the recorded keys grow by exactly the plain stream keys of the /Contents streams (array items or the single object); `objects_processed` rises by the number of keys added, and `boxes_removed` by the boxes in the old bytes of the readable streams visited, taken in order; a stream changes only if it is one of them, and then by exactly one rewrite; when distinct streams have distinct objgen pairs, every readable one whose key was not yet recorded is rewritten |
| BoxRemoval.BoxRemover.ContentsNext | pdf_box_eraser/core/box_remover.py:125-126 | one turn of the /Contents loop keeps its invariant: the keys, the rewritten contents and `objects_processed` grow by what the content-stream step on the next item adds |
| BoxRemoval.BoxRemover.ProcessPage | pdf_box_eraser/core/box_remover.py:90-131 | the call is appended to the page log as (page, page number); exactly one of `pages_processed` and `pages_skipped` rises; a skipped page changes nothing else; `quick_matches` follows the gate; on a page that runs, the page key is recorded, its /Resources are walked when they were new and the keys of all its content streams are recorded; with distinct objgen pairs, each readable content stream whose key was new is rewritten at least once; every form the page's walk records is walked (`FormsDone`); only reachable streams are rewritten; before and after, `objects_processed`, `boxes_removed` and `pages_processed` keep their relations to the recorded keys and rewritten contents (`Valid`) |
| BoxRemoval.BoxRemover.RunPage | pdf_box_eraser/core/box_remover.py:113-130 | a page past both checks has its key recorded and counted once in `pages_processed`, with its resources and contents walked as for ProcessPage and every form its walk records walked; `pages_skipped`, `quick_matches` and the page log are untouched; `objects_processed` and `boxes_removed` only grow |
| BoxRemoval.BoxRemover.WalkPage | pdf_box_eraser/core/box_remover.py:117-128 | the page's /Resources are walked when truthy and new, and the keys of all its content streams are recorded; with distinct objgen pairs, each readable content stream whose key was new is rewritten at least once; every form the walk records is walked (`FormsDone`); counters only grow |
| Processor.ClampRange | pdf_box_eraser/core/pdf_processor.py:70-76 | an absent start is 1 and an absent end is the page count; the start is at least 1; with at least one page, 1 ≤ start ≤ end ≤ total |
| Processor.ClampInRange | pdf_box_eraser/core/pdf_processor.py:70-76 | a request with 1 ≤ start ≤ end ≤ total is kept as it is |
| Processor.ClampKeepsRequestedPages | pdf_box_eraser/core/pdf_processor.py:70-76 | when the requested window meets the document, the clamped range is exactly the document's pages inside that window |
| Processor.ClampOversizedRequest | pdf_box_eraser/core/pdf_processor.py:70-76 | pages 0 to 10000 of a five-page document become pages 1 to 5, all of which exist |
| Processor.ClampPastEnd | pdf_box_eraser/core/pdf_processor.py:70-76 | a start past the last page becomes the last page alone |
| Processor.ClampBeforeStart | pdf_box_eraser/core/pdf_processor.py:70-76 | a window that ends before page 1 becomes page 1 alone |
| Processor.ClampedRangeInDocument | pdf_box_eraser/core/pdf_processor.py:70-102 | with at least one page, every page number of the clamped range exists, so the loop never fails to fetch a page |
| Processor.ClampEmptyDocument | pdf_box_eraser/core/pdf_processor.py:70-102 | with no pages, the range is empty, or is page 1 which cannot be fetched; no page is reached |
| Processor.Reachable | pdf_box_eraser/core/pdf_processor.py:99-102 | the page numbers the loop can fetch are an unbroken run from `first`, stopping at `last` or at the end of the document |
| Processor.ReachableStep | pdf_box_eraser/core/pdf_processor.py:99-100 | one more page number adds one page to the run exactly when the document has that page |
| Processor.RunStep | pdf_box_eraser/core/pdf_processor.py:99-106 | a fetched page extends the `process_page` calls by that page, the counters each page left by the current ones, and, with a callback, the reports by one that carries those counters |
| Processor.CountersGrow | pdf_box_eraser/core/box_remover.py:75-86 | while `objects_processed` counts the object keys and `boxes_removed` the boxes in the rewritten contents, neither counter falls when the keys and the rewrite log only grow |
| Processor.StatsRunSnoc | pdf_box_eraser/core/pdf_processor.py:99-106 | one more page whose counters do not fall keeps the run's counters monotone: none falls from the start, from one page to a later one, or to the end |
| Processor.ChainIsRun | pdf_box_eraser/core/pdf_processor.py:99-106 | counters that do not fall from one page to the next, starting from s0, do not fall from s0, between any two pages, or to the last page's counters |
| Processor.PdfProcessor.constructor | pdf_box_eraser/core/pdf_processor.py:19-21 | a new processor owns a fresh remover with no recorded keys and zero counters |
| Processor.PdfProcessor.ProcessOnePage | pdf_box_eraser/core/pdf_processor.py:102-103 | one loop step on an existing page calls `process_page` on `pdf.pages[page_num - 1]` with that page number (the page log grows by exactly that call), accounts for exactly one more page and rewrites only reachable streams; every form the page's walk records is walked; no recorded key or rewrite is dropped (`TallyGrows`) and none of the five counters falls; the counters it leaves are appended to the run's per-page record |
| Processor.PdfProcessor.PageStep | pdf_box_eraser/core/pdf_processor.py:99-117 | one turn of the page loop keeps its invariant: a page number past the end only skips; any other page is handed to `process_page` and reported with the counters it left; throughout, the keys, the object and resource keys and the rewrite log of the start are kept, and no counter falls below its value at the start or from one page to the next |
| Processor.PdfProcessor.RunPages | pdf_box_eraser/core/pdf_processor.py:99-117 | the loop over page numbers first..last ends with that invariant at the number past the range |
| Processor.PdfProcessor.ProcessPages | pdf_box_eraser/core/pdf_processor.py:91-117 | the page log grows by exactly the calls on `pdf.pages[n - 1]` with page number n for n = first, first+1, … while those pages exist, in that order; a missing page only skips; the page counters grow by their number; the k-th report is k out of last − first + 1 and carries the counters as the k-th `process_page` call left them, and those never fall from one page to the next; without a callback there are no reports; the remover's keys, object and resource keys and rewrite log only grow, and none of the five counters falls; every form the run records is walked |
| Processor.PdfProcessor.ProcessPdf | pdf_box_eraser/core/pdf_processor.py:54-89 | a run makes the `process_page` calls of the clamped range, in order; with no pages nothing is called or reported; with a callback the k-th report is k out of end − start + 1 of the clamped range, and carries the counters as the k-th page left them, and with at least one page the last report is complete; every form the run records is walked; state from earlier runs is kept, never reset: the recorded keys, object and resource keys and rewrite log only grow and none of the five counters falls |

## Left out

- pikepdf itself is not modelled: opening and saving files, `read_bytes`, `write`, and object dereferencing. The document is an immutable heap of objects with a map of stream bytes.
  - A stream whose bytes cannot be read (for instance an unsupported filter) is a reference missing from that map.
  - Writes never fail.
- `_safe_get_object`'s fallbacks through `_obj` are not modelled. Dereferencing is total, and a dangling reference reads as null.
- `get_object_id`'s fallbacks (type name plus `hash` of the content, or `id(obj)`) are not modelled. Every object has an `objgen` pair, given as an arbitrary function. Direct objects share (0, 0), so their keys collide, as they do in the code.
- The order of dictionary keys is the order of the entries in the model. The library's own key order is not modelled.
- Python truthiness of library objects is modelled as follows: null is false; names, arrays and dictionaries are true when non-empty; a stream is true when its dictionary is non-empty.
- The `log_exceptions` decorator is modelled only by its effect.
  - An unreadable stream in `process_content_stream` has already been recorded and counted when `read_bytes` raises, so it stays recorded and unwritten.
  - The model raises no other exceptions. In particular it never takes the exception paths of the quick detector or `_process_resources` on a well-formed heap. Exceptions raised inside library calls on malformed objects are not modelled.
- The Latin-1 decode-failure branch of `remove_boxes_from_content` is not modelled, because Latin-1 decoding cannot fail.
- Logging, `gc.collect`, `get_total_pages`, `process_pdf_file` (temporary-file saving) and `convert_pdf_to_images` (rendering) are not modelled. They are I/O or runtime hints.
- Processor.PdfProcessor.ProcessPages:
  - the progress callback is a flag. Its calls are returned as reports holding the numerator and denominator of the float `progress`.
  - exceptions raised by the callback itself are not modelled.
  - the code hands the callback the live `stats` dictionary, which later pages keep updating. A report holds a copy of the counters at the time of the call, so a callback that keeps the dictionary and reads it later is not modelled.
- Processor.PdfProcessor.ProcessPdf takes an already opened document. Opening it, and re-raising failures to the caller, are I/O.
- Rewriter.DetectorSound and BoxRemoval.PageGateSound assume that the whitespace run inside each `re…op` occurrence of the stream is ASCII, because the code's two `\s` classes differ there (see Rewriter.DetectorMissesNonAsciiSpace). Bytes elsewhere in the stream are unconstrained.
- BoxRemoval.BoxRemover.ProcessContents states that each fresh content stream is rewritten only when distinct streams have distinct (number, generation) pairs (`PdfModel.StreamsDistinct`). Without it, two streams that share a key are one key to the code, and the second is skipped; the model does not assume the premise anywhere else.
- BoxRemoval.BoxRemover.ProcessPage states that each fresh content stream of the page is rewritten only under `PdfModel.StreamsDistinct`, for the reason given for ProcessContents.
- BoxRemoval.BoxRemover.WalkPage states that each fresh content stream of the page is rewritten only under `PdfModel.StreamsDistinct`, for the reason given for ProcessContents.
- BoxRemoval.BoxRemover.RunPage states that each fresh content stream of the page is rewritten only under `PdfModel.StreamsDistinct`, for the reason given for ProcessContents.
- BoxRemoval.BoxRemover.ProcessResources: for a form reached below the first level, `FormsDone` states that the key of its /Resources is recorded, not that those resources were walked. Direct resource dictionaries all share the key `res_0_0`, so the code may skip one after walking another. Its claims about one form's resources and content need distinct objgen pairs for streams, as above.
- BoxRemoval.BoxRemover.WalkXObjects: for a form below the first level, only the key of its /Resources is stated recorded, not those resources walked, for the reason given for ProcessResources.
- BoxRemoval.BoxRemover.WalkExtGStates: for a form below the first level, only the key of its /Resources is stated recorded, not those resources walked, for the reason given for ProcessResources.
- BoxRemoval.BoxRemover.ProcessForm: for a form below the first level, only the key of its /Resources is stated recorded, not those resources walked, for the reason given for ProcessResources.
- BoxRemoval.BoxRemover.WalkForm: for a form below the first level, only the key of its /Resources is stated recorded, not those resources walked, for the reason given for ProcessResources.
- BoxRemoval.BoxRemover.WalkPage: for a form below the first level, only the key of its /Resources is stated recorded, not those resources walked, for the reason given for ProcessResources.
- BoxRemoval.BoxRemover.RunPage: for a form below the first level, only the key of its /Resources is stated recorded, not those resources walked, for the reason given for ProcessResources.
- BoxRemoval.BoxRemover.ProcessPage: for a form below the first level, only the key of its /Resources is stated recorded, not those resources walked, for the reason given for ProcessResources.
- Dictionaries are lists of entries, and the model does not require each key to appear once. `Lookup` returns the first entry with a key, while the walk loops visit every entry. With a repeated key, `keys()` followed by `get` would visit the first entry's value twice, not each entry once. PDF dictionaries hold each key once, so the two agree on every well-formed file.
- The user interface, the application bootstrap and the logging configuration are not part of this model.
