/**
 * The HTTP side of the monitor: a response writer that accumulates the
 * status code, the header and the written chunks; http.Error; and
 * statusHandler, which writes either the four-line report or a 500.
 */
module Handler {
  import opened Wrappers
  import opened Json
  import opened GoFmt
  import opened Monitor

  const StatusOK: int := 200
  const StatusInternalServerError: int := 500

  /**
   * What a response writer holds: the status code (0 while no header has
   * been written), the header map (one value per canonical key) and the
   * chunks written to the body, in order.
   */
  datatype Response = Response(code: int, header: map<string, string>, chunks: seq<string>) {
    /** The body bytes as the client receives them. */
    function Body(): string {
      Concat(chunks)
    }
  }

  /** The writer a handler is given for a new request. */
  const Fresh: Response := Response(0, map[], [])

  /** The concatenation of a sequence of chunks. */
  function Concat(chunks: seq<string>): string {
    if chunks == [] then "" else Concat(chunks[..|chunks| - 1]) + chunks[|chunks| - 1]
  }

  lemma ConcatAppend(chunks: seq<string>, c: string)
    ensures Concat(chunks + [c]) == Concat(chunks) + c
  {
    assert (chunks + [c])[..|chunks|] == chunks;
  }

  // ---------------------------------------------------------------------
  // The effect of each writer operation on its state

  /** WriteHeader: the first call decides the status; later calls are ignored. */
  function AfterWriteHeader(r: Response, status: int): (r': Response)
    ensures r'.code == (if r.code == 0 then status else r.code)
    ensures r'.header == r.header && r'.chunks == r.chunks
  {
    if r.code == 0 then r.(code := status) else r
  }

  /** Write: a write before any WriteHeader implies status 200; the data is appended. */
  function AfterWrite(r: Response, data: string): (r': Response)
    ensures r'.code == (if r.code == 0 then StatusOK else r.code) && r'.header == r.header
    ensures r'.Body() == r.Body() + data
  {
    ConcatAppend(r.chunks, data);
    AfterWriteHeader(r, StatusOK).(chunks := r.chunks + [data])
  }

  /**
   * http.Error, as recent net/http versions write it: drops Content-Length,
   * makes the body plain text that must not be sniffed, writes the status and
   * then the message and a newline.
   */
  function AfterError(r: Response, msg: string, code: int): (r': Response)
    ensures r.code != 0 ==> r'.code == r.code
    ensures r.code == 0 && code != 0 ==> r'.code == code
    ensures "Content-Length" !in r'.header
    ensures "Content-Type" in r'.header && "X-Content-Type-Options" in r'.header
    ensures r'.header["Content-Type"] == "text/plain; charset=utf-8"
    ensures r'.header["X-Content-Type-Options"] == "nosniff"
    ensures forall k :: k in r.header && k !in {"Content-Length", "Content-Type", "X-Content-Type-Options"}
                        ==> k in r'.header && r'.header[k] == r.header[k]
    ensures forall k :: k in r'.header ==> k in r.header || k == "Content-Type" || k == "X-Content-Type-Options"
    ensures r'.Body() == r.Body() + msg + "\n"
  {
    var h := (r.header - {"Content-Length"})["Content-Type" := "text/plain; charset=utf-8"]
                                              ["X-Content-Type-Options" := "nosniff"];
    AfterWrite(AfterWriteHeader(r.(header := h), code), msg + "\n")
  }

  /** The line statusHandler writes when fetchNodeStatus fails. */
  function FailureMessage(err: TransportError): (m: string)
    ensures |m| == 29 + |err.message| && m[..29] == "Failed to fetch node status: " && m[29..] == err.message
  {
    "Failed to fetch node status: " + err.message
  }

  /** The four writes statusHandler makes for a status, in order. */
  function ReportChunks(status: NodeStatus): (c: seq<string>)
    ensures |c| == 4 && forall i :: 0 <= i < 4 ==> |c[i]| > 0 && c[i][|c[i]| - 1] == '\n'
  {
    ["Goat Node Status:\n\n",
     "Chain ID: " + status.chainId + "\n",
     "Current Block Height: " + status.blockHeight + "\n",
     "Syncing Status: " + status.syncing + "\n"]
  }

  /** The state statusHandler leaves a writer in, given the outcome of fetchNodeStatus. */
  function AfterHandler(r: Response, outcome: Result<NodeStatus, TransportError>): Response {
    match outcome
    case Failure(err) => AfterError(r, FailureMessage(err), StatusInternalServerError)
    case Success(status) =>
      var c := ReportChunks(status);
      AfterWrite(AfterWrite(AfterWrite(AfterWrite(r, c[0]), c[1]), c[2]), c[3])
  }

  // ---------------------------------------------------------------------
  // http.ResponseWriter and statusHandler

  class ResponseWriter {
    var code: int
    var header: map<string, string>
    var chunks: seq<string>

    function State(): Response
      reads this
    {
      Response(code, header, chunks)
    }

    constructor ()
      ensures State() == Fresh
    {
      code := 0;
      header := map[];
      chunks := [];
    }

    method SetHeader(key: string, value: string)
      modifies this
      ensures State() == old(State()).(header := old(header)[key := value])
    {
      header := header[key := value];
    }

    method DelHeader(key: string)
      modifies this
      ensures State() == old(State()).(header := old(header) - {key})
    {
      header := header - {key};
    }

    method WriteHeader(status: int)
      modifies this
      ensures State() == AfterWriteHeader(old(State()), status)
    {
      if code == 0 {
        code := status;
      }
    }

    method Write(data: string)
      modifies this
      ensures State() == AfterWrite(old(State()), data)
    {
      WriteHeader(StatusOK);
      chunks := chunks + [data];
    }
  }

  /** http.Error(w, msg, code). */
  method HttpError(w: ResponseWriter, msg: string, code: int)
    modifies w
    ensures w.State() == AfterError(old(w.State()), msg, code)
  {
    w.DelHeader("Content-Length");
    w.SetHeader("Content-Type", "text/plain; charset=utf-8");
    w.SetHeader("X-Content-Type-Options", "nosniff");
    w.WriteHeader(code);
    w.Write(msg + "\n");
  }

  /**
   * statusHandler: fetches the status from the upstream `rpc` and writes the
   * 500 or the report to `w`.
   */
  method StatusHandler(w: ResponseWriter, rpc: RpcMethod -> Result<JsonValue, TransportError>,
                       formatOther: JsonValue -> string)
    modifies w
    ensures w.State() == AfterHandler(old(w.State()), FetchNodeStatus(rpc, formatOther).status)
  {
    var f := FetchNodeStatus(rpc, formatOther);
    match f.status
    case Failure(err) =>
      HttpError(w, FailureMessage(err), StatusInternalServerError);
    case Success(status) =>
      w.Write("Goat Node Status:\n\n");
      w.Write("Chain ID: " + status.chainId + "\n");
      w.Write("Current Block Height: " + status.blockHeight + "\n");
      w.Write("Syncing Status: " + status.syncing + "\n");
  }

  // ---------------------------------------------------------------------
  // What a client of a fresh request receives

  /** The report text for a status: the chain ID line comes before the block height line. */
  function ReportText(status: NodeStatus): string {
    "Goat Node Status:\n\nChain ID: " + status.chainId
      + "\nCurrent Block Height: " + status.blockHeight
      + "\nSyncing Status: " + status.syncing + "\n"
  }

  /** Regrouping four newline-terminated pieces. */
  lemma Regroup(p0: string, p1: string, x1: string, p2: string, x2: string, p3: string, x3: string, nl: string)
    ensures p0 + (p1 + x1 + nl) + (p2 + x2 + nl) + (p3 + x3 + nl)
         == (p0 + p1) + x1 + (nl + p2) + x2 + (nl + p3) + x3 + nl
  {
  }

  lemma ConcatFour(a: string, b: string, c: string, d: string)
    ensures Concat([a, b, c, d]) == a + b + c + d
  {
    ConcatAppend([], a);
    ConcatAppend([a], b);
    ConcatAppend([a, b], c);
    ConcatAppend([a, b, c], d);
    assert [] + [a] == [a];
    assert [a] + [b] == [a, b];
    assert [a, b] + [c] == [a, b, c];
    assert [a, b, c] + [d] == [a, b, c, d];
  }

  lemma ReportLiterals()
    ensures "Goat Node Status:\n\n" + "Chain ID: " == "Goat Node Status:\n\nChain ID: "
    ensures "\n" + "Current Block Height: " == "\nCurrent Block Height: "
    ensures "\n" + "Syncing Status: " == "\nSyncing Status: "
  {
  }

  /** The four report chunks joined are the report text. */
  lemma ReportChunksJoin(status: NodeStatus)
    ensures Concat(ReportChunks(status)) == ReportText(status)
  {
    var c := ReportChunks(status);
    ConcatFour(c[0], c[1], c[2], c[3]);
    assert c == [c[0], c[1], c[2], c[3]];
    Regroup("Goat Node Status:\n\n", "Chain ID: ", status.chainId, "Current Block Height: ", status.blockHeight,
            "Syncing Status: ", status.syncing, "\n");
    ReportLiterals();
  }

  /** On success the response is a 200 with an untouched header and the exact report text. */
  lemma SuccessResponse(status: NodeStatus)
    ensures AfterHandler(Fresh, Success(status)).code == StatusOK
    ensures AfterHandler(Fresh, Success(status)).header == map[]
    ensures AfterHandler(Fresh, Success(status)).chunks == ReportChunks(status)
    ensures AfterHandler(Fresh, Success(status)).Body() == ReportText(status)
  {
    var c := ReportChunks(status);
    assert AfterHandler(Fresh, Success(status)).chunks == [c[0]] + [c[1]] + [c[2]] + [c[3]];
    ReportChunksJoin(status);
  }

  /**
   * On failure the response is a 500 whose body is the prefixed error and a
   * newline, marked as plain text that must not be sniffed; none of the
   * report's writes is made.
   */
  lemma FailureResponse(err: TransportError)
    ensures AfterHandler(Fresh, Failure(err)).code == StatusInternalServerError
    ensures AfterHandler(Fresh, Failure(err)).header
      == map["Content-Type" := "text/plain; charset=utf-8", "X-Content-Type-Options" := "nosniff"]
    ensures AfterHandler(Fresh, Failure(err)).chunks == ["Failed to fetch node status: " + err.message + "\n"]
    ensures AfterHandler(Fresh, Failure(err)).Body() == "Failed to fetch node status: " + err.message + "\n"
  {
    var m := "Failed to fetch node status: " + err.message + "\n";
    ConcatAppend([], m);
    assert [] + [m] == [m];
  }

  /**
   * Once a status has been written, neither the handler's WriteHeader nor its
   * writes change it: only the first status counts.
   */
  lemma StatusIsSticky(r: Response, outcome: Result<NodeStatus, TransportError>)
    requires r.code != 0
    ensures AfterHandler(r, outcome).code == r.code
  {
  }

  /** The 500 a fresh writer ends with when a call fails with `err`. */
  function ErrorResponse(err: TransportError): Response {
    Response(StatusInternalServerError,
             map["Content-Type" := "text/plain; charset=utf-8", "X-Content-Type-Options" := "nosniff"],
             ["Failed to fetch node status: " + err.message + "\n"])
  }

  /**
   * What a request is answered with, given the upstream's three outcomes:
   * the first failing call's error as a 500, or, when all three succeed, a
   * 200 whose body is the report of block height, chain ID and syncing
   * value taken from the first, second and third call.
   */
  lemma ServedResponse(rpc: RpcMethod -> Result<JsonValue, TransportError>, formatOther: JsonValue -> string)
    ensures var r := AfterHandler(Fresh, FetchNodeStatus(rpc, formatOther).status);
      match (rpc(EthBlockNumber), rpc(EthChainId), rpc(EthSyncing))
      case (Failure(e), _, _) => r == ErrorResponse(e)
      case (Success(_), Failure(e), _) => r == ErrorResponse(e)
      case (Success(_), Success(_), Failure(e)) => r == ErrorResponse(e)
      case (Success(b), Success(c), Success(y)) =>
        && r.code == StatusOK && r.header == map[]
        && r.Body() == ReportText(NodeStatus(HexToString(b), HexToString(c), SyncingText(y, formatOther)))
  {
    var f := FetchNodeStatus(rpc, formatOther);
    match f.status
    case Failure(e) => FailureResponse(e);
    case Success(status) => SuccessResponse(status);
  }

  /**
   * A node that answers eth_blockNumber with null, eth_chainId with "0x10"
   * and eth_syncing with false is reported as block height "N/A", chain ID
   * "16" and syncing status "false".
   */
  lemma ServedExample(rpc: RpcMethod -> Result<JsonValue, TransportError>, formatOther: JsonValue -> string)
    requires rpc(EthBlockNumber) == Success(JNull)
    requires rpc(EthChainId) == Success(JString("0x10"))
    requires rpc(EthSyncing) == Success(JBool(false))
    ensures AfterHandler(Fresh, FetchNodeStatus(rpc, formatOther).status)
      == Response(StatusOK, map[], ReportChunks(NodeStatus("N/A", "16", "false")))
  {
    QuantityExample();
    SuccessResponse(NodeStatus("N/A", "16", "false"));
  }

  /**
   * A request is answered alike whenever the upstream answers the three
   * calls alike: same status, same header, byte-identical body.
   */
  lemma ServedDeterministic(rpc1: RpcMethod -> Result<JsonValue, TransportError>,
                            rpc2: RpcMethod -> Result<JsonValue, TransportError>,
                            formatOther: JsonValue -> string, r: Response)
    requires forall m: RpcMethod :: rpc1(m) == rpc2(m)
    ensures AfterHandler(r, FetchNodeStatus(rpc1, formatOther).status)
         == AfterHandler(r, FetchNodeStatus(rpc2, formatOther).status)
  {
    FetchDeterministic(rpc1, rpc2, formatOther);
  }
}
