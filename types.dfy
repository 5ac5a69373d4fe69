/** Values shared by the worker, the client channel and the app: the files a user picks,
    the conversion modes, and the MuPDF engine, which is outside the model and appears
    here only as a record of functions with no assumed behaviour beyond their types. */
module MuPdfTypes {

  datatype Option<+T> = None | Some(value: T)

  /** The three output formats offered by the mode selector. */
  datatype ConversionMode = PNG | SVG | HTML

  /** A browser `File`: its MIME `type` and the bytes `arrayBuffer()` yields. */
  datatype File = File(name: string, mimeType: string, bytes: seq<bv8>)

  /** The engine's opaque token for a loaded document. */
  datatype DocumentHandle = DocumentHandle(id: nat)

  /** A search hit rectangle, in the units of the resolution it was measured at. */
  datatype Box = Box(x: real, y: real, w: real, h: real)

  /** The initialised engine instance (`MuPdf.Instance`): every call the core makes. */
  datatype MuPdf = MuPdf(
    load: seq<bv8> -> DocumentHandle,
    countPages: DocumentHandle -> nat,
    drawPageAsHTML: (DocumentHandle, int) -> string,
    drawPageAsSVG: (DocumentHandle, int) -> string,
    drawPageAsPNG: (DocumentHandle, int, int) -> string,
    searchPageText: (DocumentHandle, int, string, int) -> seq<Box>,
    pageWidth: (DocumentHandle, int, int) -> real,
    pageHeight: (DocumentHandle, int, int) -> real)
}
