/**
 * `ConcurrentDownloader::downloadFile`: one attempt to fetch a URL into a file,
 * resuming at a byte offset. The file is opened first (an open failure rejects
 * without any request), then a streaming GET carries
 * `Range: bytes=<offset>-` (RFC 9110, sections 14.1.2 and 14.2). The outcome is
 * settled through a settle-once deferred by whichever handler runs first.
 *
 * The HTTP client and the streams are abstracted to the events that reach the
 * handlers: the request's rejection, the file stream's `close` and its `error`.
 */
module Transfer {

  import opened Wrappers
  import opened Throwables
  import opened Promises
  import opened DataObjects
  import Decimal
  import Paths

  /** What `fopen` did with the destination. */
  datatype OpenResult = Opened | OpenFailed(error: Throwable)

  /** An event that reaches one of the handlers `downloadFile` installs. */
  datatype TransferEvent =
    | RequestFailed(error: Throwable)     // the request promise rejected
    | StreamClosed                        // the file stream emitted `close`
    | StreamError(error: Throwable)       // the file stream emitted `error`

  /** The environment of one attempt: the open result and the events, in the order they occur. */
  datatype AttemptEnv = AttemptEnv(open: OpenResult, events: seq<TransferEvent>)

  datatype HttpRequest = HttpRequest(verb: string, url: string, headers: map<string, string>)

  /** What one attempt is observed to do. */
  datatype TransferTrace = TransferTrace(
    mode: string,                        // the mode passed to `fopen`
    request: Option<HttpRequest>,        // the request issued, if any
    outcome: Promise<DownloadedFile>)    // the settlement of the returned promise

  /** HTTP 416 Range Not Satisfiable (RFC 9110, section 15.5.17). */
  const RangeNotSatisfiable: int := 416

  /** `fopen` mode: truncate for a fresh download, append when resuming. */
  function OpenMode(offset: nat): (mode: string)
    ensures mode == "w" <==> offset == 0
    ensures mode == "a" <==> offset > 0
  {
    if offset == 0 then "w" else "a"
  }

  /** The `Range` header value `bytes=<offset>-`: everything from `offset` on. */
  function RangeHeader(offset: nat): string {
    "bytes=" + Decimal.NatToString(offset) + "-"
  }

  /** Reads an open-ended byte range `bytes=<first-pos>-`; anything else is `None`. */
  function ParseRangeHeader(h: string): Option<nat> {
    if |h| >= 7 && h[..6] == "bytes=" && h[|h| - 1] == '-' then Decimal.ParseNat(h[6..|h| - 1]) else None
  }

  /** The header asks for the bytes from exactly `offset` on, 0 included. */
  lemma RangeHeaderRoundTrip(offset: nat)
    ensures ParseRangeHeader(RangeHeader(offset)) == Some(offset)
  {
    var digits := Decimal.NatToString(offset);
    var h := RangeHeader(offset);
    assert h[..6] == "bytes=";
    assert h[6..|h| - 1] == digits;
    Decimal.ParseNatToString(offset);
  }

  /** The request `downloadFile` issues: a GET of the URL with only the `Range` header. */
  function RangeRequest(url: string, offset: nat): HttpRequest {
    HttpRequest("GET", url, map["Range" := RangeHeader(offset)])
  }

  /** The header is `bytes=`, then decimal digits only, then `-`. */
  lemma RangeHeaderForm(offset: nat)
    ensures var h := RangeHeader(offset);
      |h| >= 8 && h[..6] == "bytes=" && h[|h| - 1] == '-' &&
      forall i :: 6 <= i < |h| - 1 ==> Decimal.IsDigit(h[i])
  {
    var h := RangeHeader(offset);
    assert forall i :: 6 <= i < |h| - 1 ==> h[i] == Decimal.NatToString(offset)[i - 6];
  }

  /** The value both success paths resolve with. */
  function Completed(url: string, saveTo: string): DownloadedFile {
    DownloadedFile(url, Paths.Basename(saveTo), saveTo)
  }

  /** The resolved file keeps the URL and the path, and is named by the path's last segment. */
  lemma CompletedNamesTheFile(url: string, saveTo: string)
    ensures var d := Completed(url, saveTo);
      d.url == url && d.path == saveTo &&
      '/' !in d.filename && |d.filename| <= |saveTo| && d.filename == saveTo[|saveTo| - |d.filename|..]
  {
    Paths.BasenameIsLastSegment(saveTo);
  }

  /** Whether a request error means the file is already complete: a 416 while resuming. */
  predicate AlreadyComplete(error: Throwable, offset: nat) {
    error.ResponseError? && error.status == RangeNotSatisfiable && offset > 0
  }

  /** The settlement the handler of `ev` asks for. */
  function EventSettlement(url: string, saveTo: string, offset: nat, ev: TransferEvent): (p: Promise<DownloadedFile>)
    ensures p.Fulfilled? ==> p.value == Completed(url, saveTo)
    ensures p.Fulfilled? <==> ev.StreamClosed? || (ev.RequestFailed? && AlreadyComplete(ev.error, offset))
    ensures p.Rejected? ==> !ev.StreamClosed? && p.reason == ev.error
    ensures !p.Pending?
    ensures !p.Fulfilled? ==> p == Rejected(ev.error)
  {
    match ev
    case RequestFailed(e) => if AlreadyComplete(e, offset) then Fulfilled(Completed(url, saveTo)) else Rejected(e)
    case StreamClosed => Fulfilled(Completed(url, saveTo))
    case StreamError(e) => Rejected(e)
  }

  /** Reference definition of one attempt: the first handler to run settles the outcome. */
  function TransferSpec(url: string, saveTo: string, offset: nat, env: AttemptEnv): TransferTrace {
    match env.open
    case OpenFailed(e) => TransferTrace(OpenMode(offset), None, Rejected(e))
    case Opened =>
      TransferTrace(OpenMode(offset), Some(RangeRequest(url, offset)),
        if env.events == [] then Pending else EventSettlement(url, saveTo, offset, env.events[0]))
  }

  /** `downloadFile($browser, $loop, $output, $downloadUrl, $saveTo, $bytesDownloaded)`. */
  method DownloadFile(url: string, saveTo: string, offset: nat, env: AttemptEnv) returns (trace: TransferTrace)
    ensures trace == TransferSpec(url, saveTo, offset, env)
  {
    var mode := OpenMode(offset);
    if env.open.OpenFailed? {
      return TransferTrace(mode, None, Rejected(env.open.error));
    }
    var request := RangeRequest(url, offset);
    var deferred := new Deferred<DownloadedFile>();
    for i := 0 to |env.events|
      invariant deferred.state == if i == 0 then Pending else EventSettlement(url, saveTo, offset, env.events[0])
    {
      match env.events[i] {
        case RequestFailed(e) =>
          if e.ResponseError? && e.status == RangeNotSatisfiable && offset > 0 {
            deferred.Resolve(Completed(url, saveTo));
          } else {
            deferred.Reject(e);
          }
        case StreamClosed =>
          deferred.Resolve(Completed(url, saveTo));
        case StreamError(e) =>
          deferred.Reject(e);
      }
    }
    trace := TransferTrace(mode, Some(request), deferred.state);
  }

  /** An open failure rejects with that failure and no request is issued. */
  lemma OpenFailureSendsNoRequest(url: string, saveTo: string, offset: nat, env: AttemptEnv)
    requires env.open.OpenFailed?
    ensures TransferSpec(url, saveTo, offset, env).request == None
    ensures TransferSpec(url, saveTo, offset, env).outcome == Rejected(env.open.error)
  {
  }

  /**
   * Once the file is open, the request is a GET of the URL whose `Range`
   * header reads back as exactly the offset, including offset 0.
   */
  lemma RequestResumesAtOffset(url: string, saveTo: string, offset: nat, env: AttemptEnv)
    requires env.open.Opened?
    ensures var r := TransferSpec(url, saveTo, offset, env).request;
      r.Some? && r.value.verb == "GET" && r.value.url == url &&
      r.value.headers.Keys == {"Range"} &&
      ParseRangeHeader(r.value.headers["Range"]) == Some(offset)
  {
    RangeHeaderRoundTrip(offset);
  }

  /**
   * A 416 while resuming fulfils with the completed file; a 416 at offset 0,
   * or any other request error, rejects with that same error.
   */
  lemma RequestErrorOutcome(url: string, saveTo: string, offset: nat, e: Throwable, rest: seq<TransferEvent>)
    ensures var t := TransferSpec(url, saveTo, offset, AttemptEnv(Opened, [RequestFailed(e)] + rest));
      if e == ResponseError(416) && offset > 0
      then t.outcome == Fulfilled(DownloadedFile(url, Paths.Basename(saveTo), saveTo)) && t.mode == "a"
      else t.outcome == Rejected(e)
  {
    var env := AttemptEnv(Opened, [RequestFailed(e)] + rest);
    assert env.events[0] == RequestFailed(e);
    assert AlreadyComplete(e, offset) <==> e == ResponseError(416) && offset > 0;
  }

  /**
   * Whatever the events, a fulfilled attempt yields the file at `saveTo` named
   * by its basename, and a rejected one carries an error it was given.
   */
  lemma OutcomeIsCompletedFileOrCause(url: string, saveTo: string, offset: nat, env: AttemptEnv)
    ensures var t := TransferSpec(url, saveTo, offset, env);
      (t.outcome.Fulfilled? ==>
        t.outcome.value == DownloadedFile(url, Paths.Basename(saveTo), saveTo) &&
        '/' !in t.outcome.value.filename) &&
      (t.outcome.Rejected? ==>
        (env.open.OpenFailed? && t.outcome.reason == env.open.error) ||
        (env.open.Opened? && env.events != [] && !env.events[0].StreamClosed? &&
         t.outcome.reason == env.events[0].error))
  {
    Paths.BasenameIsLastSegment(saveTo);
  }

  /** A file stream `error` before any other event rejects the attempt with that error. */
  lemma StreamErrorRejects(url: string, saveTo: string, offset: nat, e: Throwable, rest: seq<TransferEvent>)
    ensures TransferSpec(url, saveTo, offset, AttemptEnv(Opened, [StreamError(e)] + rest)).outcome == Rejected(e)
  {
    assert ([StreamError(e)] + rest)[0] == StreamError(e);
  }

  /** Settle-once: only the first event decides; whatever follows it is a no-op. */
  lemma FirstSettlementWins(url: string, saveTo: string, offset: nat, open: OpenResult,
                            first: TransferEvent, rest: seq<TransferEvent>)
    ensures TransferSpec(url, saveTo, offset, AttemptEnv(open, [first] + rest)) ==
            TransferSpec(url, saveTo, offset, AttemptEnv(open, [first]))
  {
  }
}
