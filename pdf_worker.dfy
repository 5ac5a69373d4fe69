/** The background worker: its lazily initialised engine handle, the conversion and search
    pipelines, and the dispatcher that answers "convert" and "search" messages. */
module PdfWorker {
  import opened MuPdfTypes

  /** Resolution at which page sizes are measured for hit normalisation. */
  const PNG_SEARCH_RESOLUTION := 72
  /** Resolution at which PNG pages are rendered. */
  const PNG_RESOLUTION := 300
  /** Cap passed to the engine's text search, per page. */
  const MAX_HITS_PER_PAGE := 100

  /** The `Error` each guard throws: "MuPDF is not ready", "Invalid file" and
      "Invalid search query". Their texts never reach the foreground, since the rejection is not caught. */
  datatype WorkerError = NotReady | InvalidFile | InvalidSearchQuery

  /** The outcome of an async worker function: its value, or the error it rejects with. */
  datatype Result<T> = Ok(value: T) | Err(error: WorkerError)

  datatype SearchResult = SearchResult(page: int, results: seq<Box>, pageWidth: real, pageHeight: real)

  /** The `data` of a message event received by the worker. */
  datatype Message = Message(tag: string, file: Option<File>, mode: ConversionMode, searchQuery: Option<string>)

  /** What the worker posts back: the page artifacts of a conversion, or the search results. */
  datatype Reply = Pages(pages: seq<string>) | Results(results: seq<SearchResult>)

  /** The message types the dispatcher acts on. */
  predicate IsHandledTag(tag: string)
  {
    tag == "convert" || tag == "search"
  }

  /** JavaScript truthiness of `searchQuery`: neither undefined nor the empty string. */
  function IsQuery(q: Option<string>): (b: bool)
    ensures b <==> q.Some? && |q.value| > 0
  {
    q.Some? && q.value != ""
  }

  /** One page rendered in the format the mode selects. */
  function ConvertPdfPage(pdf: MuPdf, doc: DocumentHandle, page: int, mode: ConversionMode): (artifact: string)
    ensures mode == HTML ==> artifact == pdf.drawPageAsHTML(doc, page)
    ensures mode == SVG ==> artifact == pdf.drawPageAsSVG(doc, page)
    ensures mode == PNG ==> artifact == pdf.drawPageAsPNG(doc, page, PNG_RESOLUTION)
  {
    match mode
    case HTML => pdf.drawPageAsHTML(doc, page)
    case SVG => pdf.drawPageAsSVG(doc, page)
    case PNG => pdf.drawPageAsPNG(doc, page, PNG_RESOLUTION)
  }

  /** Pages 1..countPages(doc), each converted, in page order. */
  function PageArtifacts(pdf: MuPdf, doc: DocumentHandle, mode: ConversionMode): seq<string>
  {
    seq(pdf.countPages(doc), i => ConvertPdfPage(pdf, doc, i + 1, mode))
  }

  /** The search entry for one page: its hits and its size at the search resolution. */
  function PageSearchResult(pdf: MuPdf, doc: DocumentHandle, page: int, query: string): SearchResult
  {
    SearchResult(page,
                 pdf.searchPageText(doc, page, query, MAX_HITS_PER_PAGE),
                 pdf.pageWidth(doc, page, PNG_SEARCH_RESOLUTION),
                 pdf.pageHeight(doc, page, PNG_SEARCH_RESOLUTION))
  }

  /** One search entry per page 1..countPages(doc), in page order. */
  function SearchResults(pdf: MuPdf, doc: DocumentHandle, query: string): seq<SearchResult>
  {
    seq(pdf.countPages(doc), i => PageSearchResult(pdf, doc, i + 1, query))
  }

  /** The worker's module state: `muPdf` stays undefined until the engine's init promise resolves. */
  class Worker {
    var muPdf: Option<MuPdf>

    constructor ()
      ensures muPdf == None
    {
      muPdf := None;
    }

    /** The `then` of `initMuPdf()`: the instance becomes available. */
    method InitResolved(instance: MuPdf)
      modifies this
      ensures muPdf == Some(instance)
    {
      muPdf := Some(instance);
    }

    /** The engine, or the not-ready error while init has not yet resolved. */
    function GetMuPdfInstance(): (r: Result<MuPdf>)
      reads this
      ensures r.Ok? <==> muPdf.Some?
      ensures r.Ok? ==> r.value == muPdf.value
      ensures r.Err? ==> r.error == NotReady
    {
      match muPdf
      case None => Err(NotReady)
      case Some(pdf) => Ok(pdf)
    }

    /** Loads the file's bytes; the readiness check comes first, and a missing file never reaches `load`. */
    function LoadPdf(file: Option<File>): (r: Result<DocumentHandle>)
      reads this
      ensures muPdf.None? ==> r == Err(NotReady)
      ensures muPdf.Some? && file.None? ==> r == Err(InvalidFile)
      ensures muPdf.Some? && file.Some? ==> r == Ok(muPdf.value.load(file.value.bytes))
    {
      match GetMuPdfInstance()
      case Err(e) => Err(e)
      case Ok(pdf) =>
        if file.None? then Err(InvalidFile) else Ok(pdf.load(file.value.bytes))
    }

    /** Converts pages 1..count in order, one artifact per page. */
    method ConvertPdfDocument(doc: DocumentHandle, mode: ConversionMode) returns (r: Result<seq<string>>)
      ensures muPdf.None? ==> r == Err(NotReady)
      ensures muPdf.Some? ==> r.Ok? && |r.value| == muPdf.value.countPages(doc)
      ensures muPdf.Some? ==> forall i :: 0 <= i < |r.value| ==> r.value[i] == ConvertPdfPage(muPdf.value, doc, i + 1, mode)
    {
      var instance := GetMuPdfInstance();
      if instance.Err? {
        return Err(instance.error);
      }
      var pdf := instance.value;
      var count := pdf.countPages(doc);
      var res: seq<string> := [];
      for i := 1 to count + 1
        invariant |res| == i - 1
        invariant forall j :: 0 <= j < |res| ==> res[j] == ConvertPdfPage(pdf, doc, j + 1, mode)
      {
        res := res + [ConvertPdfPage(pdf, doc, i, mode)];
      }
      return Ok(res);
    }

    /** Loads the file, then converts every page of it. */
    method ConvertFile(file: Option<File>, mode: ConversionMode) returns (r: Result<seq<string>>)
      ensures muPdf.None? ==> r == Err(NotReady)
      ensures muPdf.Some? && file.None? ==> r == Err(InvalidFile)
      ensures muPdf.Some? && file.Some? ==>
        r == Ok(PageArtifacts(muPdf.value, muPdf.value.load(file.value.bytes), mode))
    {
      var doc := LoadPdf(file);
      if doc.Err? {
        return Err(doc.error);
      }
      r := ConvertPdfDocument(doc.value, mode);
      assert r.value == PageArtifacts(muPdf.value, doc.value, mode);
    }

    /** Checks readiness, then the query, then loads the file, and searches every page in order. */
    method SearchFile(file: Option<File>, searchQuery: Option<string>) returns (r: Result<seq<SearchResult>>)
      ensures muPdf.None? ==> r == Err(NotReady)
      ensures muPdf.Some? && !IsQuery(searchQuery) ==> r == Err(InvalidSearchQuery)
      ensures muPdf.Some? && IsQuery(searchQuery) && file.None? ==> r == Err(InvalidFile)
      ensures muPdf.Some? && IsQuery(searchQuery) && file.Some? ==>
        var pdf, doc := muPdf.value, muPdf.value.load(file.value.bytes);
        r.Ok? && |r.value| == pdf.countPages(doc) &&
        forall i :: 0 <= i < |r.value| ==>
          r.value[i].page == i + 1 &&
          r.value[i].results == pdf.searchPageText(doc, i + 1, searchQuery.value, MAX_HITS_PER_PAGE) &&
          r.value[i].pageWidth == pdf.pageWidth(doc, i + 1, PNG_SEARCH_RESOLUTION) &&
          r.value[i].pageHeight == pdf.pageHeight(doc, i + 1, PNG_SEARCH_RESOLUTION)
    {
      var instance := GetMuPdfInstance();
      if instance.Err? {
        return Err(instance.error);
      }
      var pdf := instance.value;
      if !IsQuery(searchQuery) {
        return Err(InvalidSearchQuery);
      }
      var query := searchQuery.value;
      var loaded := LoadPdf(file);
      if loaded.Err? {
        return Err(loaded.error);
      }
      var doc := loaded.value;
      var pages := pdf.countPages(doc);
      var res: seq<SearchResult> := [];
      for page := 1 to pages + 1
        invariant |res| == page - 1
        invariant forall j :: 0 <= j < |res| ==> res[j] == PageSearchResult(pdf, doc, j + 1, query)
      {
        var results := pdf.searchPageText(doc, page, query, MAX_HITS_PER_PAGE);
        var pageHeight := pdf.pageHeight(doc, page, PNG_SEARCH_RESOLUTION);
        var pageWidth := pdf.pageWidth(doc, page, PNG_SEARCH_RESOLUTION);
        res := res + [SearchResult(page, results, pageWidth, pageHeight)];
      }
      return Ok(res);
    }

    /** One message event: "convert" and "search" are answered with the result when it
        succeeds; a rejected request and any other tag post nothing. */
    method HandleMessage(m: Message) returns (reply: Option<Reply>)
      ensures !IsHandledTag(m.tag) ==> reply == None
      ensures m.tag == "convert" ==> (reply.Some? <==> muPdf.Some? && m.file.Some?)
      ensures m.tag == "convert" && reply.Some? ==>
        reply.value == Pages(PageArtifacts(muPdf.value, muPdf.value.load(m.file.value.bytes), m.mode))
      ensures m.tag == "search" ==> (reply.Some? <==> muPdf.Some? && IsQuery(m.searchQuery) && m.file.Some?)
      ensures m.tag == "search" && reply.Some? ==>
        reply.value == Results(SearchResults(muPdf.value, muPdf.value.load(m.file.value.bytes), m.searchQuery.value))
    {
      reply := None;
      if m.tag == "convert" {
        var r := ConvertFile(m.file, m.mode);
        if r.Ok? {
          reply := Some(Pages(r.value));
        }
      }
      if m.tag == "search" {
        var r := SearchFile(m.file, m.searchQuery);
        if r.Ok? {
          assert r.value == SearchResults(muPdf.value, muPdf.value.load(m.file.value.bytes), m.searchQuery.value);
          reply := Some(Results(r.value));
        }
      }
    }
  }
}
