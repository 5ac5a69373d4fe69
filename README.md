# MuPDF.js demo: worker pipelines, foreground state and the request channel

This project models the document-processing logic of the MuPDF.js demo and proves what it does.
The demo has three parts:

- A background worker (`src/pdf-worker.ts`). It holds the MuPDF engine once the engine's init
  promise resolves. It answers `"convert"` messages with one artifact per page and `"search"`
  messages with one search entry per page.
- The client side of the worker channel (`src/pdf.ts`). It checks the MIME type of a file
  selection. `processFile` posts a request to the shared worker and returns a promise that the
  next reply settles.
- The React component (`src/App.tsx`). It keeps the processor-state record
  `{processing, file, mode, error, output}`, a debounced search query and its results. It renders
  the page list and rescales hit boxes onto a displayed PNG page.

The MuPDF engine is outside the model. It appears as the record `MuPdfTypes.MuPdf` of total
functions (`load`, `countPages`, `drawPageAsHTML/SVG/PNG`, `searchPageText`, `pageWidth`,
`pageHeight`). Nothing is assumed about these functions beyond their types.

Modules:

- `MuPdfTypes` (types.dfy): shared values.
- `PdfWorker` (pdf_worker.dfy): the worker. Class `Worker` holds the module-level `muPdf`
  variable. `ConvertPdfDocument` and `SearchFile` are the source's `for` loops, proved against
  what they promise.
- `Pdf` (pdf.dfy): `IsPdfFile`, and class `WorkerChannel` for the shared `worker`
  object. The class records the posted messages, the registered listeners and the settled promises.
- `App` (app.dfy): pure record updates, the debounce step, hit counting, rendering and rescaling.
  Class `AppComponent` holds the component's state and refs. Its methods are the handlers, the
  search effect and the asynchronous completions: a conversion resolving, the timer firing, a
  search returning.

The model makes these behaviours of the source explicit:

- `processFile` posts type `"exec"`. The worker acts only on `"convert"` and `"search"`, so it
  never replies to the request (`Pdf.ExecRequest`, `PdfWorker.Worker.HandleMessage`).
- `processFile`'s listener calls `removeEventListener("message", val)` with the event object, not
  with itself. No listener is ever removed. Every reply settles every pending promise, whatever
  request it answers (`Pdf.WorkerChannel.DispatchMessage`).
- The worker's functions are `async`. A thrown guard error is a rejected promise that
  `handleMessage` never catches, so no reply is posted at all.
- The search effect depends on `processorState` as well as on the query. It re-runs whenever the
  record is replaced: an invalid selection and a finished conversion both restart a pending search
  timer.
- The `then` callbacks spread the record they captured when the request was issued. A finished
  file conversion therefore restores the mode of that moment.
- A search that returns late still replaces the results. No check relates a response to its
  request.

## Model

| member | source | states |
|---|---|---|
| `PdfWorker.IsQuery` | src/pdf-worker.ts:75 | the query passes the guard iff it is present and non-empty |
| `PdfWorker.ConvertPdfPage` | src/pdf-worker.ts:49-64 | HTML mode draws with `drawPageAsHTML`, SVG with `drawPageAsSVG`, PNG with `drawPageAsPNG` at resolution 300 |
| `PdfWorker.Worker.constructor` | src/pdf-worker.ts:9 | the engine handle starts undefined |
| `PdfWorker.Worker.InitResolved` | src/pdf-worker.ts:11-13 | once init resolves, the handle is that instance |
| `PdfWorker.Worker.GetMuPdfInstance` | src/pdf-worker.ts:110-116 | fails with not-ready exactly while the handle is undefined; otherwise returns it |
| `PdfWorker.Worker.LoadPdf` | src/pdf-worker.ts:99-108 | readiness is checked first; a null file fails with "Invalid file" and never reaches `load`; otherwise the handle `load` gives for the file's bytes |
| `PdfWorker.Worker.ConvertPdfDocument` | src/pdf-worker.ts:34-47 | fails only when not ready; otherwise exactly `countPages(doc)` artifacts, the i-th being page i+1 converted in the given mode, so no page is skipped |
| `PdfWorker.Worker.ConvertFile` | src/pdf-worker.ts:29-32 | not-ready before invalid-file; with a file, the artifacts of every page of the loaded document |
| `PdfWorker.Worker.SearchFile` | src/pdf-worker.ts:73-97 | errors in the order not-ready, then invalid query (empty or undefined) before any load, then invalid file; otherwise one entry per page 1..count in order, with `page` the loop index, hits from `searchPageText` with cap 100 (an entry even with no hits), and width and height at resolution 72 |
| `PdfWorker.Worker.HandleMessage` | src/pdf-worker.ts:15-27 | "convert" is answered exactly when ready and a file is present, with all page artifacts; "search" exactly when ready, the query non-empty and a file present, with all search entries; any other tag, and any failed request, posts nothing |
| `Pdf.IsPdfFile` | src/pdf.ts:3-5 | true iff the list is present, non-empty and its first file has type "application/pdf" (false for a null or empty list) |
| `Pdf.IsPdfFileReadsFirstOnly` | src/pdf.ts:4 | files after the first never change the verdict |
| `Pdf.ExecRequest` | src/pdf.ts:14-18 | the request carries the file and the mode, and its tag is not one the worker handles |
| `Pdf.RemoveEventListener` | src/pdf.ts:22 | passing the event object removes no listener; passing a listener removes exactly its registrations |
| `Pdf.ProcessFileIsNeverAnswered` | src/pdf.ts:9-26 | the request `processFile` posts, delivered to the worker, gets no reply in any worker state |
| `Pdf.WorkerChannel.constructor` | src/pdf.ts:7 | one shared worker with nothing posted, no listeners and no promises |
| `Pdf.WorkerChannel.ProcessFile` | src/pdf.ts:9-26 | posts exactly one "exec" message per call and adds exactly one listener, for a fresh pending promise; the listener set grows by one on every call |
| `Pdf.WorkerChannel.DispatchMessage` | src/pdf.ts:20-24 | every pending promise with a registered listener settles with this reply; settled ones keep their first value; the listener list is left unchanged |
| `App.FileAccepted` | src/App.tsx:37-44 | a PDF selection sets processing and the file and keeps mode, error and output |
| `App.FileRejected` | src/App.tsx:56-62 | a non-PDF selection clears processing and sets error to "<type> is not valid"; file, mode and output are kept |
| `App.ModeChosen` | src/App.tsx:87-116 | the new mode always; with a file also processing and an empty output; without one nothing else changes |
| `App.Resume` | src/App.tsx:46-54 | a resolved conversion: not processing, empty error, output replaced wholesale; after a file change the file is that file and the mode the one captured at selection; after a mode change (lines 101-108) the new mode and the same file |
| `App.ArmedTimer` | src/App.tsx:72-85 | after the effect runs, a timer is pending iff the query is non-empty, with delay 600 ms and that query captured |
| `App.QueryChanged` | src/App.tsx:67-85 | a changed query re-arms the timer for it (none when empty); an unchanged value changes nothing |
| `App.BurstFromArmed` | src/App.tsx:72-85 | from an armed timer, a burst of keystrokes leaves one timer, armed for the last query |
| `App.BurstSearchesOnlyLast` | src/App.tsx:72-85 | after any burst, the only timer that can fire captured the burst's last query, and it is armed unless every keystroke repeated the current query |
| `App.NumSearchResults` | src/App.tsx:118-121 | the count is zero iff no page has a hit |
| `App.NumSearchResultsAppend` | src/App.tsx:118-121 | the count of two result lists joined is the sum of their counts |
| `App.NumSearchResultsCountsAllHits` | src/App.tsx:118-121 | the count equals the number of hits across all pages |
| `App.FindPage` | src/App.tsx:196 | the first entry whose page equals n, or nothing iff there is no such entry |
| `App.FindPageNumbered` | src/App.tsx:196 | in a consecutively numbered list, the entry for page k+base is the k-th |
| `App.RenderOutput` | src/App.tsx:180-218 | nothing for empty output; otherwise one view per artifact in order, PNG pages numbered key+1 with the entry for page key+1, SVG and HTML pages as markup |
| `App.RenderedPngPageGetsItsResult` | src/App.tsx:190-198 | with the worker's search results, the PNG page at index key gets exactly page key+1's entry |
| `App.Rescale` | src/App.tsx:234-243 | one box per hit, x and w scaled by width/pageWidth, y and h by height/pageHeight |
| `App.RescaleAtReferenceSize` | src/App.tsx:234-243 | at the reference size the boxes equal the hits |
| `App.RescaleByFactor` | src/App.tsx:234-243 | at k times the reference size every coordinate and extent is multiplied by k |
| `App.RescaleStaysOnPage` | src/App.tsx:234-243 | a hit inside the reference page maps inside the displayed image |
| `App.PngPageBoxes` | src/App.tsx:230-246 | with a mounted image and an entry, the boxes are recomputed from scratch at the measured size; otherwise they stay as they were |
| `App.AppComponent.constructor` | src/App.tsx:13-30 | the initial record, an empty query, no results, no timer, nothing issued |
| `App.AppComponent.SearchEffect` | src/App.tsx:72-85 | the old timer is always cleared; a non-empty query arms exactly one 600 ms timer for itself; an empty one clears the results |
| `App.AppComponent.HandleFileChange` | src/App.tsx:32-65 | a PDF: record per FileAccepted, query cleared, no timer, one conversion in the captured mode issued; a non-PDF: record per FileRejected and the effect re-run; null or empty: nothing changes |
| `App.AppComponent.HandleSearchQueryChange` | src/App.tsx:67-70 | the query and timer step per QueryChanged; an empty new query clears the results with no search; nothing else changes |
| `App.AppComponent.HandleModeChange` | src/App.tsx:87-116 | record per ModeChosen, query cleared; a conversion in the new mode is issued only when a file is present |
| `App.AppComponent.ConversionSettled` | src/App.tsx:46-54 | record per Resume; fileRef set to the file after a file change; the search effect re-runs |
| `App.AppComponent.TimerFired` | src/App.tsx:76-81 | one search for the current query with the current fileRef, searching set, the timer gone |
| `App.AppComponent.SearchSettled` | src/App.tsx:78-80 | searching cleared and the results replaced, whatever query they answer |

## Left out

- The MuPDF engine (`mupdf-js`) is a foreign library. Its calls are parameters; its own failures (a decode or render error) are not modelled.
- `File.arrayBuffer`, `postMessage` and `addEventListener` transport, and `window.setTimeout` timing are asynchronous I/O and scheduling. They appear as events: a message delivered, a promise settled, a timer fired.
- `performance.now`, `logTimeDelta` and `console.log` only time and log.
- JSX markup, CSS classes, `dangerouslySetInnerHTML` and the `disabled` attributes are UI. The disabled inputs show up only as the requirement `!processing` on the two handlers (src/App.tsx:133, src/App.tsx:156). The measured image size is an input to `PngPageBoxes`.
- Hit boxes are rescaled over reals, not IEEE doubles.
- App.Rescale, App.PngPageBoxes, App.ScaleBox: require a non-zero reference page size, because division by zero gives Infinity or NaN in JavaScript and has no real-number counterpart.
- Pdf.IsPdfFile: returns false for a null list, where the source returns `null`; both are falsy wherever the result is used.
- Request correlation and sequence ids are absent from the code, so the model has none.
- The foreground `searchFile` is imported from `./pdf` (src/App.tsx:8), but `src/pdf.ts` does not export it. It is an abstract producer of search results: `TimerFired` records the call and `SearchSettled` delivers the results. A rejected foreground search, which would leave `searching` set, is not modelled.
- The component does not wire `processFile` to `WorkerChannel`: `ConversionSettled` receives the output as an input. The channel, on its own, shows that the worker never answers an "exec" request.
- src/ConversionMode.ts is not part of this model. `ConversionMode` is taken to be the three values PNG, SVG and HTML. A message without a mode, or with an unknown one, is not modelled.
- `countPages` returns a natural number. A negative count would make the loops produce nothing.
- The effect's `[searchTimeoutRef]` dependency never changes. The mount-time run of the search effect is folded into the constructor.
