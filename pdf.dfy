/** The foreground side of the worker channel: the MIME check on a file selection, and
    `processFile`, which posts a request to the one shared worker and registers a listener
    that settles the returned promise with the next message the worker posts. */
module Pdf {
  import opened MuPdfTypes
  import PdfWorker

  const PDF_MIME_TYPE := "application/pdf"

  /** Whether a selection is a PDF: a list whose first file has the PDF MIME type.
      A null list is modelled as false (the source returns null, which is falsy). */
  function IsPdfFile(files: Option<seq<File>>): (r: bool)
    ensures r <==> files.Some? && |files.value| > 0 && files.value[0].mimeType == PDF_MIME_TYPE
  {
    match files
    case None => false
    case Some(fs) => |fs| > 0 && fs[0].mimeType == PDF_MIME_TYPE
  }

  /** The verdict depends on the first file alone. */
  lemma IsPdfFileReadsFirstOnly(f: File, rest1: seq<File>, rest2: seq<File>)
    ensures IsPdfFile(Some([f] + rest1)) == IsPdfFile(Some([f] + rest2)) == (f.mimeType == PDF_MIME_TYPE)
  {
  }

  /** The message `processFile` posts. Its type tag is "exec", which is not one the worker handles. */
  function ExecRequest(file: Option<File>, mode: ConversionMode): (m: PdfWorker.Message)
    ensures m.file == file && m.mode == mode && m.searchQuery == None
    ensures !PdfWorker.IsHandledTag(m.tag)
  {
    PdfWorker.Message("exec", file, mode, None)
  }

  /** The `handleMessage` arrow function one `processFile` call registers: it settles that call's promise. */
  datatype Listener = Settle(promise: nat)

  /** The second argument of `removeEventListener`: a listener function, or any other value.
      `processFile` always passes the event object; `ListenerFn` and `Without` describe the
      call it would have to make to remove its listener, which the source never makes. */
  datatype ListenerArg = ListenerFn(listener: Listener) | EventObject(data: PdfWorker.Reply)

  /** `removeEventListener("message", arg)`: drops the registrations of `arg` when it is a registered
      listener function; any other value matches no registration. */
  function RemoveEventListener(listeners: seq<Listener>, arg: ListenerArg): (r: seq<Listener>)
    ensures arg.EventObject? ==> r == listeners
    ensures arg.ListenerFn? ==> forall l :: l in r <==> l in listeners && l != arg.listener
  {
    match arg
    case EventObject(_) => listeners
    case ListenerFn(fn) => Without(listeners, fn)
  }

  /** The registrations left once every registration of `fn` is removed. */
  function Without(listeners: seq<Listener>, fn: Listener): (r: seq<Listener>)
    ensures forall l :: l in r <==> l in listeners && l != fn
  {
    if listeners == [] then []
    else if listeners[0] == fn then Without(listeners[1..], fn)
    else [listeners[0]] + Without(listeners[1..], fn)
  }

  /** A `processFile` request delivered to the worker: the message posted is the last one, and the
      worker's dispatcher posts no reply to it, whatever its state. */
  method ProcessFileIsNeverAnswered(ch: WorkerChannel, w: PdfWorker.Worker, file: Option<File>, mode: ConversionMode)
    returns (reply: Option<PdfWorker.Reply>)
    requires ch.Valid()
    modifies ch
    ensures ch.Valid() && ch.posted == old(ch.posted) + [ExecRequest(file, mode)]
    ensures reply == None
  {
    var _ := ch.ProcessFile(file, mode);
    reply := w.HandleMessage(ch.posted[|ch.posted| - 1]);
  }

  /** The promise ids the given listeners settle. */
  function PromisesOf(listeners: seq<Listener>): set<nat>
  {
    set l | l in listeners :: l.promise
  }

  /** The module-level `worker` as the foreground sees it: what has been posted to it, the
      'message' listeners registered on it, and the `processFile` promises settled so far. */
  class WorkerChannel {
    var posted: seq<PdfWorker.Message>
    var listeners: seq<Listener>
    var settled: map<nat, PdfWorker.Reply>
    var promises: nat

    ghost predicate Valid()
      reads this
    {
      (forall l :: l in listeners ==> l.promise < promises) &&
      (forall p :: p in settled ==> p < promises)
    }

    constructor ()
      ensures Valid()
      ensures posted == [] && listeners == [] && settled == map[] && promises == 0
    {
      posted, listeners, settled, promises := [], [], map[], 0;
    }

    /** `processFile(file, mode)`: posts exactly one "exec" request and adds one listener that
        settles the new promise `p`; nothing ties that listener to this request. */
    method ProcessFile(file: Option<File>, mode: ConversionMode) returns (p: nat)
      requires Valid()
      modifies this
      ensures Valid()
      ensures posted == old(posted) + [ExecRequest(file, mode)]
      ensures listeners == old(listeners) + [Settle(p)] && |listeners| == |old(listeners)| + 1
      ensures p == old(promises) && promises == old(promises) + 1
      ensures settled == old(settled) && p !in settled
    {
      posted := posted + [ExecRequest(file, mode)];
      p := promises;
      promises := promises + 1;
      listeners := listeners + [Settle(p)];
    }

    /** One message event from the worker, whatever request it answers. Every registered listener
        runs: its promise, if still pending, settles with `data`, and its `removeEventListener`
        call is passed the event, so no listener is ever removed. */
    method DispatchMessage(data: PdfWorker.Reply)
      requires Valid()
      modifies this
      ensures Valid()
      ensures posted == old(posted) && promises == old(promises)
      ensures listeners == old(listeners)
      ensures settled.Keys == old(settled).Keys + PromisesOf(old(listeners))
      ensures forall p :: p in old(settled) ==> settled[p] == old(settled)[p]
      ensures forall p :: p in settled && p !in old(settled) ==> settled[p] == data
    {
      var registered := listeners;
      for i := 0 to |registered|
        invariant listeners == registered && posted == old(posted) && promises == old(promises)
        invariant settled.Keys == old(settled).Keys + PromisesOf(registered[..i])
        invariant forall p :: p in old(settled) ==> settled[p] == old(settled)[p]
        invariant forall p :: p in settled && p !in old(settled) ==> settled[p] == data
      {
        var l := registered[i];
        assert PromisesOf(registered[..i + 1]) == PromisesOf(registered[..i]) + {l.promise} by {
          assert registered[..i + 1] == registered[..i] + [l];
        }
        if l in listeners {
          if l.promise !in settled {
            settled := settled[l.promise := data];
          }
          listeners := RemoveEventListener(listeners, EventObject(data));
        }
      }
      assert registered[..|registered|] == registered;
    }
  }
}
