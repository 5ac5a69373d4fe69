/** The foreground component: the processor-state record and how file selection, mode
    changes and finished conversions replace it; the debounced search; the total hit count;
    the page list it renders; and the rescaling of hit boxes onto a displayed PNG page. */
module App {
  import opened MuPdfTypes
  import opened PdfWorker
  import Pdf

  /** Delay of the search timer, in milliseconds. */
  const DEBOUNCE_MS := 600

  datatype ProcessorState = ProcessorState(
    processing: bool, file: Option<File>, mode: ConversionMode, error: string, output: seq<string>)

  const INITIAL_STATE := ProcessorState(false, None, PNG, "", [])

  // ---------------------------------------------------------------------------------------
  // Record updates made by the handlers and by the `then` of a conversion

  /** A PDF was selected: busy, with the new file; the rest of the record as it was. */
  function FileAccepted(s: ProcessorState, f: File): (r: ProcessorState)
    ensures r.processing && r.file == Some(f)
    ensures r.mode == s.mode && r.error == s.error && r.output == s.output
  {
    s.(file := Some(f), processing := true)
  }

  /** A non-PDF was selected: not busy, with an error naming its type; file, mode and output kept. */
  function FileRejected(s: ProcessorState, f: File): (r: ProcessorState)
    ensures !r.processing && r.error == f.mimeType + " is not valid"
    ensures r.file == s.file && r.mode == s.mode && r.output == s.output
  {
    s.(processing := false, error := f.mimeType + " is not valid")
  }

  /** A mode was chosen: with a file, busy with no output; without one, only the mode changes. */
  function ModeChosen(s: ProcessorState, mode: ConversionMode): (r: ProcessorState)
    ensures r.mode == mode && r.file == s.file && r.error == s.error
    ensures s.file.Some? ==> r.processing && r.output == []
    ensures s.file.None? ==> r.processing == s.processing && r.output == s.output
  {
    if s.file.Some? then s.(processing := true, output := [], mode := mode)
    else s.(mode := mode)
  }

  /** The `then` callback of a conversion, with the state record it captured when it was issued. */
  datatype Continuation =
    | AfterFileChange(snapshot: ProcessorState, file: File)
    | AfterModeChange(snapshot: ProcessorState, mode: ConversionMode)

  /** The record a resolved conversion installs: idle, no error, the new output wholesale; the file
      and mode are those of the request, the mode of a file change being the one captured then. */
  function Resume(c: Continuation, output: seq<string>): (r: ProcessorState)
    ensures !r.processing && r.error == "" && r.output == output
    ensures c.AfterFileChange? ==> r.file == Some(c.file) && r.mode == c.snapshot.mode
    ensures c.AfterModeChange? ==> r.file == c.snapshot.file && r.mode == c.mode
  {
    match c
    case AfterFileChange(s, f) => s.(processing := false, file := Some(f), error := "", output := output)
    case AfterModeChange(s, mode) => s.(processing := false, error := "", output := output, mode := mode)
  }

  // ---------------------------------------------------------------------------------------
  // Debounced search

  /** A scheduled `setTimeout` callback: its delay and the query it captured. */
  datatype Timeout = Timeout(delayMs: nat, query: string)

  /** The pending timer after the search effect ran for `query`: the old one is always cleared,
      and only a non-empty query schedules a new one. */
  function ArmedTimer(query: string): (t: Option<Timeout>)
    ensures t.Some? <==> |query| > 0
    ensures t.Some? ==> t.value.delayMs == DEBOUNCE_MS && t.value.query == query
  {
    if query == "" then None else Some(Timeout(DEBOUNCE_MS, query))
  }

  /** The query text together with the pending timer. */
  datatype SearchInput = SearchInput(query: string, timeout: Option<Timeout>)

  /** A keystroke: a new value re-runs the effect; the same value changes nothing. */
  function QueryChanged(s: SearchInput, q: string): (r: SearchInput)
    ensures r.query == q
    ensures q != s.query ==> r.timeout == ArmedTimer(q)
    ensures q == s.query ==> r == s
  {
    if q == s.query then s else SearchInput(q, ArmedTimer(q))
  }

  /** The keystrokes of a burst, typed faster than the timer fires. */
  function Burst(s: SearchInput, qs: seq<string>): SearchInput
    decreases |qs|
  {
    if qs == [] then s else Burst(QueryChanged(s, qs[0]), qs[1..])
  }

  /** From a state whose timer is armed for its query, a burst leaves one timer armed for its last query. */
  lemma {:induction false} BurstFromArmed(s: SearchInput, qs: seq<string>)
    requires |qs| > 0 && s.timeout == ArmedTimer(s.query)
    ensures Burst(s, qs) == SearchInput(qs[|qs| - 1], ArmedTimer(qs[|qs| - 1]))
    decreases |qs|
  {
    var s' := QueryChanged(s, qs[0]);
    if |qs| > 1 {
      BurstFromArmed(s', qs[1..]);
    }
  }

  /** Debounce law: after a burst, the only search that can still fire is one for the last query
      of the burst; and unless every keystroke repeated the current query, that search is armed. */
  lemma {:induction false} BurstSearchesOnlyLast(s: SearchInput, qs: seq<string>)
    requires |qs| > 0
    requires s.timeout.Some? ==> s.timeout == ArmedTimer(s.query)
    ensures Burst(s, qs).query == qs[|qs| - 1]
    ensures Burst(s, qs).timeout == ArmedTimer(qs[|qs| - 1]) ||
            (Burst(s, qs).timeout == None && forall i :: 0 <= i < |qs| ==> qs[i] == s.query)
    decreases |qs|
  {
    var s' := QueryChanged(s, qs[0]);
    if qs[0] != s.query {
      if |qs| > 1 {
        BurstFromArmed(s', qs[1..]);
      }
    } else if |qs| > 1 {
      BurstSearchesOnlyLast(s', qs[1..]);
    }
  }

  // ---------------------------------------------------------------------------------------
  // Total hit count

  /** The total hit count: the hit counts of the pages summed page by page, from the first.
      It is zero exactly when no page has a hit, and then no "N results" label is shown. */
  function NumSearchResults(rs: seq<SearchResult>): (n: nat)
    ensures n == 0 <==> forall i :: 0 <= i < |rs| ==> rs[i].results == []
    decreases |rs|
  {
    if rs == [] then 0
    else
      var init := rs[..|rs| - 1];
      assert forall i :: 0 <= i < |init| ==> init[i] == rs[i];
      NumSearchResults(init) + |rs[|rs| - 1].results|
  }

  /** Every hit of every page, page after page. */
  function AllHits(rs: seq<SearchResult>): seq<Box>
  {
    if rs == [] then [] else rs[0].results + AllHits(rs[1..])
  }

  lemma {:induction false} NumSearchResultsAppend(a: seq<SearchResult>, b: seq<SearchResult>)
    ensures NumSearchResults(a + b) == NumSearchResults(a) + NumSearchResults(b)
    decreases |b|
  {
    if b == [] {
      assert a + b == a;
    } else {
      var b' := b[..|b| - 1];
      assert (a + b)[..|a + b| - 1] == a + b';
      NumSearchResultsAppend(a, b');
    }
  }

  /** The count is the number of hits across all pages. */
  lemma {:induction false} NumSearchResultsCountsAllHits(rs: seq<SearchResult>)
    ensures NumSearchResults(rs) == |AllHits(rs)|
    decreases |rs|
  {
    if rs != [] {
      assert rs == [rs[0]] + rs[1..];
      NumSearchResultsAppend([rs[0]], rs[1..]);
      assert [rs[0]][..0] == [];
      NumSearchResultsCountsAllHits(rs[1..]);
    }
  }

  // ---------------------------------------------------------------------------------------
  // The rendered page list

  /** The first entry for page `n`, scanning from the front, if there is one. */
  function FindPage(rs: seq<SearchResult>, n: int): (r: Option<SearchResult>)
    ensures r.None? <==> forall i :: 0 <= i < |rs| ==> rs[i].page != n
    ensures r.Some? ==> exists k :: 0 <= k < |rs| && rs[k] == r.value && rs[k].page == n &&
                                    forall j :: 0 <= j < k ==> rs[j].page != n
    decreases |rs|
  {
    if rs == [] then None
    else if rs[0].page == n then Some(rs[0])
    else
      var r := FindPage(rs[1..], n);
      assert r.Some? ==> exists k :: 0 <= k < |rs[1..]| && rs[1..][k] == r.value && rs[1..][k].page == n &&
                                     (forall j :: 0 <= j < k ==> rs[1..][j].page != n) &&
                                     rs[k + 1] == r.value && (forall j :: 0 <= j < k + 1 ==> rs[j].page != n);
      r
  }

  /** In a list numbered consecutively from `base`, the entry for page `k + base` is the k-th. */
  lemma {:induction false} FindPageNumbered(rs: seq<SearchResult>, base: int, k: nat)
    requires forall i :: 0 <= i < |rs| ==> rs[i].page == i + base
    requires k < |rs|
    ensures FindPage(rs, k + base) == Some(rs[k])
    decreases k
  {
    if k > 0 {
      assert rs[0].page == base;
      FindPageNumbered(rs[1..], base + 1, k - 1);
    }
  }

  /** What `renderOutput` puts on screen for one page. */
  datatype PageView =
    | PngPage(page: string, pageNumber: int, searchResults: Option<SearchResult>)
    | SvgPage(markup: string)
    | HtmlPage(markup: string)

  /** Nothing for an empty output; otherwise one view per artifact, in order, of the kind the
      mode selects (anything but PNG and SVG is shown as HTML); a PNG page at index `key` is
      numbered `key + 1` and gets the search entry for that page number. */
  function RenderOutput(state: ProcessorState, rs: seq<SearchResult>): (views: seq<PageView>)
    ensures |views| == |state.output|
    ensures state.mode == PNG ==> forall key :: 0 <= key < |views| ==>
      views[key] == PngPage(state.output[key], key + 1, FindPage(rs, key + 1))
    ensures state.mode == SVG ==> forall key :: 0 <= key < |views| ==> views[key] == SvgPage(state.output[key])
    ensures state.mode == HTML ==> forall key :: 0 <= key < |views| ==> views[key] == HtmlPage(state.output[key])
  {
    var output := state.output;
    if |output| == 0 then []
    else if state.mode == PNG then seq(|output|, key requires 0 <= key < |output| => PngPage(output[key], key + 1, FindPage(rs, key + 1)))
    else if state.mode == SVG then seq(|output|, key requires 0 <= key < |output| => SvgPage(output[key]))
    else seq(|output|, key requires 0 <= key < |output| => HtmlPage(output[key]))
  }

  /** With the worker's search results for the document, the PNG page at index `key` is given
      the entry of page `key + 1`, zero hits or not. */
  lemma RenderedPngPageGetsItsResult(state: ProcessorState, pdf: MuPdf, doc: DocumentHandle, query: string, key: nat)
    requires state.mode == PNG && key < |state.output| && key < pdf.countPages(doc)
    ensures RenderOutput(state, SearchResults(pdf, doc, query))[key].searchResults
         == Some(PageSearchResult(pdf, doc, key + 1, query))
  {
    var rs := SearchResults(pdf, doc, query);
    FindPageNumbered(rs, 1, key);
  }

  // ---------------------------------------------------------------------------------------
  // Hit boxes on a displayed PNG page

  /** The displayed size of a page image, in pixels. */
  datatype Size = Size(width: real, height: real)

  /** One hit, from reference page units to displayed pixels. */
  function ScaleBox(b: Box, pageWidth: real, pageHeight: real, width: real, height: real): Box
    requires pageWidth != 0.0 && pageHeight != 0.0
  {
    Box(b.x / pageWidth * width, b.y / pageHeight * height, b.w / pageWidth * width, b.h / pageHeight * height)
  }

  /** The boxes `PngPage` overlays: one per hit, in hit order, each rescaled. */
  function Rescale(sr: SearchResult, width: real, height: real): (boxes: seq<Box>)
    requires sr.pageWidth != 0.0 && sr.pageHeight != 0.0
    ensures |boxes| == |sr.results|
    ensures forall i :: 0 <= i < |boxes| ==>
      boxes[i] == ScaleBox(sr.results[i], sr.pageWidth, sr.pageHeight, width, height)
  {
    seq(|sr.results|, i requires 0 <= i < |sr.results| =>
      ScaleBox(sr.results[i], sr.pageWidth, sr.pageHeight, width, height))
  }

  /** Displayed at the reference size, the boxes are the hits themselves. */
  lemma RescaleAtReferenceSize(sr: SearchResult)
    requires sr.pageWidth != 0.0 && sr.pageHeight != 0.0
    ensures Rescale(sr, sr.pageWidth, sr.pageHeight) == sr.results
  {
    var boxes := Rescale(sr, sr.pageWidth, sr.pageHeight);
    forall i | 0 <= i < |boxes|
      ensures boxes[i] == sr.results[i]
    {
      ScaleBoxAtReferenceSize(sr.results[i], sr.pageWidth, sr.pageHeight);
    }
  }

  lemma ScaleBoxAtReferenceSize(b: Box, pageWidth: real, pageHeight: real)
    requires pageWidth != 0.0 && pageHeight != 0.0
    ensures ScaleBox(b, pageWidth, pageHeight, pageWidth, pageHeight) == b
  {
    DivCancel(b.x, pageWidth);
    DivCancel(b.w, pageWidth);
    DivCancel(b.y, pageHeight);
    DivCancel(b.h, pageHeight);
  }

  /** Displayed at k times the reference size, every coordinate and extent is k times the hit's. */
  lemma RescaleByFactor(sr: SearchResult, k: real)
    requires sr.pageWidth != 0.0 && sr.pageHeight != 0.0
    ensures var boxes := Rescale(sr, k * sr.pageWidth, k * sr.pageHeight);
      forall i :: 0 <= i < |boxes| ==>
        var b := sr.results[i];
        boxes[i] == Box(k * b.x, k * b.y, k * b.w, k * b.h)
  {
    forall i | 0 <= i < |sr.results| {
      RescaleByFactorAt(sr, k, i);
    }
  }

  lemma RescaleByFactorAt(sr: SearchResult, k: real, i: nat)
    requires sr.pageWidth != 0.0 && sr.pageHeight != 0.0 && i < |sr.results|
    ensures var b := sr.results[i];
      Rescale(sr, k * sr.pageWidth, k * sr.pageHeight)[i] == Box(k * b.x, k * b.y, k * b.w, k * b.h)
  {
    ScaleBoxByFactor(sr.results[i], sr.pageWidth, sr.pageHeight, k);
  }

  lemma ScaleBoxByFactor(b: Box, pageWidth: real, pageHeight: real, k: real)
    requires pageWidth != 0.0 && pageHeight != 0.0
    ensures ScaleBox(b, pageWidth, pageHeight, k * pageWidth, k * pageHeight) == Box(k * b.x, k * b.y, k * b.w, k * b.h)
  {
    DivMul(b.x, pageWidth, k);
    DivMul(b.w, pageWidth, k);
    DivMul(b.y, pageHeight, k);
    DivMul(b.h, pageHeight, k);
  }

  lemma DivCancel(a: real, d: real)
    requires d != 0.0
    ensures a / d * d == a
  {
  }

  lemma DivMul(a: real, d: real, k: real)
    requires d != 0.0
    ensures a / d * (k * d) == k * a
  {
    var q := a / d;
    DivCancel(a, d);
    calc {
      q * (k * d);
      == (q * k) * d;
      == (k * q) * d;
      == k * (q * d);
      == k * a;
    }
  }

  /** A hit inside the reference page lands inside the displayed image. */
  lemma RescaleStaysOnPage(sr: SearchResult, size: Size, i: nat)
    requires sr.pageWidth > 0.0 && sr.pageHeight > 0.0 && size.width >= 0.0 && size.height >= 0.0
    requires i < |sr.results|
    requires var b := sr.results[i];
      0.0 <= b.x && 0.0 <= b.w && b.x + b.w <= sr.pageWidth &&
      0.0 <= b.y && 0.0 <= b.h && b.y + b.h <= sr.pageHeight
    ensures var s := Rescale(sr, size.width, size.height)[i];
      0.0 <= s.x && 0.0 <= s.w && s.x + s.w <= size.width &&
      0.0 <= s.y && 0.0 <= s.h && s.y + s.h <= size.height
  {
    ScaleBoxStaysOnPage(sr.results[i], sr.pageWidth, sr.pageHeight, size);
  }

  lemma ScaleBoxStaysOnPage(b: Box, pageWidth: real, pageHeight: real, size: Size)
    requires pageWidth > 0.0 && pageHeight > 0.0 && size.width >= 0.0 && size.height >= 0.0
    requires 0.0 <= b.x && 0.0 <= b.w && b.x + b.w <= pageWidth
    requires 0.0 <= b.y && 0.0 <= b.h && b.y + b.h <= pageHeight
    ensures var s := ScaleBox(b, pageWidth, pageHeight, size.width, size.height);
      0.0 <= s.x && 0.0 <= s.w && s.x + s.w <= size.width &&
      0.0 <= s.y && 0.0 <= s.h && s.y + s.h <= size.height
  {
    var s := ScaleBox(b, pageWidth, pageHeight, size.width, size.height);
    Within(b.x, b.w, pageWidth, size.width, s.x, s.w);
    Within(b.y, b.h, pageHeight, size.height, s.y, s.h);
  }

  /** An interval [x, x + w] inside [0, d], scaled by n / d, lies inside [0, n]. */
  lemma Within(x: real, w: real, d: real, n: real, sx: real, sw: real)
    requires d > 0.0 && n >= 0.0 && 0.0 <= x && 0.0 <= w && x + w <= d
    requires sx == x / d * n && sw == w / d * n
    ensures 0.0 <= sx && 0.0 <= sw && sx + sw <= n
  {
    var p, q := x / d, w / d;
    FractionsOfWhole(x, w, d, p, q);
    ScaledFractions(p, q, n, sx, sw);
  }

  /** Two parts of [0, d], as fractions of d, are non-negative and sum to at most one. */
  lemma FractionsOfWhole(x: real, w: real, d: real, p: real, q: real)
    requires d > 0.0 && 0.0 <= x && 0.0 <= w && x + w <= d
    requires p == x / d && q == w / d
    ensures 0.0 <= p && 0.0 <= q && p + q <= 1.0
  {
    DivNonNegative(x, d);
    DivNonNegative(w, d);
    DivDistributes(x, w, d);
    DivAtMostOne(x + w, d);
  }

  lemma DivNonNegative(a: real, d: real)
    requires 0.0 <= a && 0.0 < d
    ensures 0.0 <= a / d
  {
  }

  lemma DivDistributes(a: real, b: real, d: real)
    requires d != 0.0
    ensures a / d + b / d == (a + b) / d
  {
  }

  lemma DivAtMostOne(a: real, d: real)
    requires a <= d && 0.0 < d
    ensures a / d <= 1.0
  {
  }

  /** Fractions summing to at most one, taken of n, sum to at most n. */
  lemma ScaledFractions(p: real, q: real, n: real, sx: real, sw: real)
    requires 0.0 <= p && 0.0 <= q && p + q <= 1.0 && n >= 0.0
    requires sx == p * n && sw == q * n
    ensures 0.0 <= sx && 0.0 <= sw && sx + sw <= n
  {
    MulNonNegative(p, n);
    MulNonNegative(q, n);
    MulDistributes(p, q, n);
    MulAtMostOne(p + q, n);
  }

  lemma MulNonNegative(a: real, n: real)
    requires 0.0 <= a && 0.0 <= n
    ensures 0.0 <= a * n
  {
  }

  lemma MulAtMostOne(a: real, n: real)
    requires a <= 1.0 && 0.0 <= n
    ensures a * n <= n
  {
  }

  lemma MulDistributes(p: real, q: real, n: real)
    ensures p * n + q * n == (p + q) * n
  {
  }

  /** The `PngPage` effect on a change of its search entry: with the image mounted and an entry,
      the boxes are recomputed from scratch from the measured size; otherwise they stay. */
  function PngPageBoxes(boxes: seq<Box>, img: Option<Size>, sr: Option<SearchResult>): (r: seq<Box>)
    requires sr.Some? ==> sr.value.pageWidth != 0.0 && sr.value.pageHeight != 0.0
    ensures img.Some? && sr.Some? ==> r == Rescale(sr.value, img.value.width, img.value.height)
    ensures img.None? || sr.None? ==> r == boxes
  {
    if img.Some? && sr.Some? then Rescale(sr.value, img.value.width, img.value.height) else boxes
  }

  // ---------------------------------------------------------------------------------------
  // The component

  /** A `processFile(file, mode)` call. */
  datatype ConvertCall = ConvertCall(file: File, mode: ConversionMode)

  /** A `searchFile(file, query)` call, made when the debounce timer fires. */
  datatype SearchCall = SearchCall(file: Option<File>, query: string)

  /** The component's state and refs, with the requests it has issued. */
  class AppComponent {
    var processorState: ProcessorState
    var fileRef: Option<File>
    var searchQuery: string
    var searching: bool
    var searchResults: seq<SearchResult>
    var timeout: Option<Timeout>
    var pending: Option<Continuation>
    var conversions: seq<ConvertCall>
    var searches: seq<SearchCall>

    /** A pending timer always carries the current, non-empty query; the busy flag is up
        exactly while a conversion is in flight. */
    ghost predicate Valid()
      reads this
    {
      (timeout.Some? ==> timeout == ArmedTimer(searchQuery)) &&
      (processorState.processing <==> pending.Some?)
    }

    /** First render: the initial record, an empty query, no results; the mount effect arms nothing. */
    constructor ()
      ensures Valid()
      ensures processorState == INITIAL_STATE && fileRef == None
      ensures searchQuery == "" && !searching && searchResults == [] && timeout == None
      ensures pending == None && conversions == [] && searches == []
    {
      processorState := INITIAL_STATE;
      fileRef := None;
      searchQuery, searching, searchResults := "", false, [];
      timeout := None;
      pending := None;
      conversions, searches := [], [];
    }

    /** The search effect, run after a render in which the query or the record changed. */
    method SearchEffect()
      modifies this`timeout, this`searchResults
      ensures timeout == ArmedTimer(searchQuery)
      ensures searchResults == if searchQuery == "" then [] else old(searchResults)
    {
      timeout := None;
      if searchQuery != "" {
        timeout := Some(Timeout(DEBOUNCE_MS, searchQuery));
      } else {
        searchResults := [];
      }
    }

    /** `handleFileChange`; the file input is disabled while processing. */
    method HandleFileChange(files: Option<seq<File>>)
      requires Valid() && !processorState.processing
      modifies this
      ensures Valid()
      ensures fileRef == old(fileRef) && searching == old(searching) && searches == old(searches)
      ensures Pdf.IsPdfFile(files) ==>
        var f := files.value[0];
        processorState == FileAccepted(old(processorState), f) &&
        searchQuery == "" && timeout == None && searchResults == [] &&
        pending == Some(AfterFileChange(old(processorState), f)) &&
        conversions == old(conversions) + [ConvertCall(f, old(processorState).mode)]
      ensures !Pdf.IsPdfFile(files) && files.Some? && |files.value| > 0 ==>
        processorState == FileRejected(old(processorState), files.value[0]) &&
        searchQuery == old(searchQuery) && timeout == ArmedTimer(searchQuery) &&
        searchResults == (if searchQuery == "" then [] else old(searchResults)) &&
        pending == old(pending) && conversions == old(conversions)
      ensures files.None? || files.value == [] ==>
        processorState == old(processorState) && searchQuery == old(searchQuery) &&
        timeout == old(timeout) && searchResults == old(searchResults) &&
        pending == old(pending) && conversions == old(conversions)
    {
      if Pdf.IsPdfFile(files) {
        var f := files.value[0];
        var snapshot := processorState;
        processorState := FileAccepted(snapshot, f);
        searchQuery := "";
        conversions := conversions + [ConvertCall(f, snapshot.mode)];
        pending := Some(AfterFileChange(snapshot, f));
        SearchEffect();
      } else if files.Some? && |files.value| > 0 {
        processorState := FileRejected(processorState, files.value[0]);
        SearchEffect();
      }
    }

    /** `handleSearchQueryChange`: a new value re-runs the search effect; an empty one clears the
        results at once, with no search. */
    method HandleSearchQueryChange(q: string)
      requires Valid()
      modifies this
      ensures Valid()
      ensures SearchInput(searchQuery, timeout) == QueryChanged(SearchInput(old(searchQuery), old(timeout)), q)
      ensures searchResults == if q == "" && q != old(searchQuery) then [] else old(searchResults)
      ensures processorState == old(processorState) && fileRef == old(fileRef) && searching == old(searching)
      ensures pending == old(pending) && conversions == old(conversions) && searches == old(searches)
    {
      if q != searchQuery {
        searchQuery := q;
        SearchEffect();
      }
    }

    /** `handleModeChange`; the selector is disabled while processing. */
    method HandleModeChange(mode: ConversionMode)
      requires Valid() && !processorState.processing
      modifies this
      ensures Valid()
      ensures processorState == ModeChosen(old(processorState), mode)
      ensures searchQuery == "" && timeout == None && searchResults == []
      ensures old(processorState).file.Some? ==>
        pending == Some(AfterModeChange(old(processorState), mode)) &&
        conversions == old(conversions) + [ConvertCall(old(processorState).file.value, mode)]
      ensures old(processorState).file.None? ==> pending == old(pending) && conversions == old(conversions)
      ensures fileRef == old(fileRef) && searching == old(searching) && searches == old(searches)
    {
      var snapshot := processorState;
      processorState := ModeChosen(snapshot, mode);
      searchQuery := "";
      if snapshot.file.Some? {
        conversions := conversions + [ConvertCall(snapshot.file.value, mode)];
        pending := Some(AfterModeChange(snapshot, mode));
      }
      SearchEffect();
    }

    /** The pending conversion's promise resolved with `output`. */
    method ConversionSettled(output: seq<string>)
      requires Valid() && pending.Some?
      modifies this
      ensures Valid()
      ensures processorState == Resume(old(pending).value, output) && pending == None
      ensures fileRef == if old(pending).value.AfterFileChange? then Some(old(pending).value.file) else old(fileRef)
      ensures searchQuery == old(searchQuery) && timeout == ArmedTimer(searchQuery)
      ensures searchResults == if searchQuery == "" then [] else old(searchResults)
      ensures searching == old(searching) && conversions == old(conversions) && searches == old(searches)
    {
      var c := pending.value;
      if c.AfterFileChange? {
        fileRef := Some(c.file);
      }
      processorState := Resume(c, output);
      pending := None;
      SearchEffect();
    }

    /** The debounce timer fired: one search for the query it captured, with the file of the
        last finished file conversion. */
    method TimerFired()
      requires Valid()
      modifies this
      ensures Valid()
      ensures old(timeout).Some? ==>
        searching && timeout == None && searches == old(searches) + [SearchCall(fileRef, searchQuery)]
      ensures old(timeout).None? ==> searching == old(searching) && timeout == old(timeout) && searches == old(searches)
      ensures processorState == old(processorState) && fileRef == old(fileRef) && searchQuery == old(searchQuery)
      ensures searchResults == old(searchResults) && pending == old(pending) && conversions == old(conversions)
    {
      if timeout.Some? {
        var query := timeout.value.query;
        timeout := None;
        searching := true;
        searches := searches + [SearchCall(fileRef, query)];
      }
    }

    /** A search issued by the timer returned `results`; nothing checks which query it answers. */
    method SearchSettled(results: seq<SearchResult>)
      requires Valid()
      modifies this
      ensures Valid()
      ensures !searching && searchResults == results
      ensures processorState == old(processorState) && fileRef == old(fileRef) && searchQuery == old(searchQuery)
      ensures timeout == old(timeout) && pending == old(pending)
      ensures conversions == old(conversions) && searches == old(searches)
    {
      searching := false;
      searchResults := results;
    }
  }
}
