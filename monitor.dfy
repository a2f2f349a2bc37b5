/**
 * The monitor's data path: one JSON-RPC call per method (callRPC), the
 * conversion of a hex quantity to decimal text (hexToString), and the
 * three ordered calls that make up a node status (fetchNodeStatus).
 *
 * The upstream node is not modelled: fetchNodeStatus is given an oracle
 * that says what each call returns.
 */
module Monitor {
  import opened Wrappers
  import opened Json
  import opened GoFmt

  /** The error a failed call returns; the handler prints it with %v, which gives its message. */
  datatype TransportError = TransportError(message: string)

  /** The three fields of a node status, each already rendered as text. */
  datatype NodeStatus = NodeStatus(blockHeight: string, chainId: string, syncing: string)

  /** The JSON-RPC methods the monitor calls. */
  datatype RpcMethod = EthBlockNumber | EthChainId | EthSyncing {
    function Name(): string {
      match this
      case EthBlockNumber => "eth_blockNumber"
      case EthChainId => "eth_chainId"
      case EthSyncing => "eth_syncing"
    }
  }

  /** The order in which fetchNodeStatus makes its calls. */
  const CallOrder: seq<RpcMethod> := [EthBlockNumber, EthChainId, EthSyncing]

  // ---------------------------------------------------------------------
  // callRPC

  /**
   * The request envelope. `params` is None for Go's nil slice, which is
   * what the monitor passes and what encodes as JSON null.
   */
  datatype RpcRequest = RpcRequest(jsonrpc: string, methodName: string, params: Option<seq<JsonValue>>, id: int)

  /** The envelope callRPC sends for a method: version "2.0", nil params, id 1. */
  function NewRequest(m: RpcMethod): (r: RpcRequest)
    ensures r.jsonrpc == "2.0" && r.methodName == m.Name() && r.params.None? && r.id == 1
  {
    RpcRequest("2.0", m.Name(), None, 1)
  }

  /** The method names the three calls put on the wire. */
  lemma WireNames()
    ensures NewRequest(EthBlockNumber).methodName == "eth_blockNumber"
    ensures NewRequest(EthChainId).methodName == "eth_chainId"
    ensures NewRequest(EthSyncing).methodName == "eth_syncing"
  {
  }

  /** The three calls send three different envelopes: they differ in the method name. */
  lemma RequestsNameTheirMethod(m1: RpcMethod, m2: RpcMethod)
    ensures NewRequest(m1) == NewRequest(m2) <==> m1 == m2
  {
    if m1 != m2 {
      assert NewRequest(m1).methodName[4] != NewRequest(m2).methodName[4];
    }
  }

  /**
   * callRPC with its transport passed in: `post` is the HTTP POST of the
   * envelope, giving the response body or the transport's error, and
   * `decodeResult` is the JSON decoding of the body's "result" field, None
   * when the body does not decode. A body that does not decode, or that has
   * no "result", is not an error: the call then returns nil.
   */
  function CallRpc<Body>(m: RpcMethod, post: RpcRequest -> Result<Body, TransportError>,
                         decodeResult: Body -> Option<JsonValue>): (r: Result<JsonValue, TransportError>)
    ensures r.Failure? <==> post(NewRequest(m)).Failure?
    ensures r.Failure? ==> r.error == post(NewRequest(m)).error
    ensures r.Success? ==> match decodeResult(post(NewRequest(m)).value)
                           case None => r.value == JNull
                           case Some(v) => r.value == v
  {
    match post(NewRequest(m))
    case Failure(e) => Failure(e)
    case Success(body) => Success(decodeResult(body).GetOr(JNull))
  }

  // ---------------------------------------------------------------------
  // hexToString

  /**
   * hexToString: "N/A" for anything but a string; for a string, the decimal
   * text of the int that Sscanf(s, "0x%x", &v) leaves in a zero-initialised v.
   */
  function HexToString(v: JsonValue): (r: string)
    ensures !v.JString? ==> r == "N/A"
    ensures v.JString? ==> IsDecimalNumeral(r) && r != "N/A"
    ensures v.JString? ==> NumeralValue(r) == ScanfHex(v.s).GetOr(0)
  {
    match v
    case JString(s) =>
      var intVal := ScanfHex(s).GetOr(0);
      var r := FormatInt(intVal);
      assert r[0] != 'N';
      r
    case _ => "N/A"
  }

  /** Conversion gives "N/A" exactly for the values that are not strings. */
  lemma NotAvailableIffNotString(v: JsonValue)
    ensures HexToString(v) == "N/A" <==> !v.JString?
  {
  }

  /** A node's quantity "0x" + lower-case hex of n reads back as the decimal text of n. */
  lemma HexRoundTrip(n: nat)
    requires n <= IntMax
    ensures HexToString(JString("0x" + LowerHex(n))) == FormatInt(n)
  {
    var h := HexInput("", "", LowerHex(n), "");
    assert h.Text() == "0x" + LowerHex(n);
    LowerHexRoundTrip(n);
    ScanfHexComplete(h);
  }

  /**
   * Every string converts either to "0" or to the decimal text of the value
   * of a well-formed "0x" input that fits an int; wherever the input is well
   * formed, the conversion is that value's text, and anything else gives "0".
   */
  lemma HexToStringOfString(s: string)
    ensures HexToString(JString(s)) == "0"
      || exists h: HexInput :: h.WellFormed() && h.Text() == s && InInt(h.Value())
           && HexToString(JString(s)) == FormatInt(h.Value())
  {
    if ScanfHex(s).Some? {
      ScanfHexSound(s);
    }
  }

  /** A well-formed input converts to its value's decimal text, or to "0" when the value overflows. */
  lemma HexToStringOfInput(h: HexInput)
    requires h.WellFormed()
    ensures HexToString(JString(h.Text())) == FormatInt(if InInt(h.Value()) then h.Value() else 0)
  {
    ScanfHexComplete(h);
  }

  /** Without the exact literal "0x" in front (so also "", "10" or "0X10"), the result is "0". */
  lemma NoPrefixGivesZero(s: string)
    requires !(|s| >= 2 && s[0] == '0' && s[1] == 'x')
    ensures HexToString(JString(s)) == "0"
  {
  }

  /**
   * With the literal but no hex digit where the number should start (after
   * a blank run and an optional sign), the result is "0".
   */
  lemma NoDigitsGivesZero(blanks: string, sign: string, rest: string)
    requires IsBlankRun(blanks)
    requires sign == "" || sign == "+" || sign == "-"
    requires rest == [] || !IsHexDigit(rest[0])
    requires sign == "" && rest != [] ==> !IsSpace(rest[0]) && rest[0] != '+' && rest[0] != '-'
    ensures HexToString(JString("0x" + blanks + sign + rest)) == "0"
  {
    ScanfHexNoDigits(blanks, sign, rest);
  }

  /** A string with no hex digit after its first two characters converts to "0". */
  lemma NoHexDigitsGivesZero(s: string)
    requires forall i :: 2 <= i < |s| ==> !IsHexDigit(s[i])
    ensures HexToString(JString(s)) == "0"
  {
    ScanfHexWithoutDigits(s);
  }

  /** A hex quantity too large for an int leaves v at zero. */
  lemma OverflowGivesZero(n: nat)
    requires n > IntMax
    ensures HexToString(JString("0x" + LowerHex(n))) == "0"
  {
    ScanfHexOverflow(n);
  }

  /** The quantity "0x10" reads as "16". */
  lemma QuantityExample()
    ensures HexToString(JString("0x10")) == "16"
  {
    ScanfHexExample();
    FormatIntExample();
  }

  /** Inputs the scan rejects, and values that are not strings. */
  lemma RejectedInputExamples()
    ensures HexToString(JString("10")) == "0"
    ensures HexToString(JString("0X10")) == "0"
    ensures HexToString(JString("")) == "0"
    ensures HexToString(JString("0x")) == "0"
    ensures HexToString(JNull) == "N/A"
    ensures HexToString(JBool(false)) == "N/A"
  {
    NoPrefixGivesZero("10");
    NoPrefixGivesZero("0X10");
    NoPrefixGivesZero("");
    NoHexDigitsGivesZero("0x");
  }

  // ---------------------------------------------------------------------
  // fetchNodeStatus

  /**
   * The text %v gives for the syncing result: "<nil>" for nil, "true" or
   * "false" for a bool, the string itself for a string; numbers, arrays and
   * objects go through `formatOther`.
   */
  function SyncingText(v: JsonValue, formatOther: JsonValue -> string): (r: string)
    ensures v.JNull? ==> r == "<nil>"
    ensures v == JBool(false) ==> r == "false"
    ensures v == JBool(true) ==> r == "true"
    ensures v.JString? ==> r == v.s
  {
    match v
    case JNull => "<nil>"
    case JBool(b) => if b then "true" else "false"
    case JString(s) => s
    case _ => formatOther(v)
  }

  /** What fetchNodeStatus returns, together with the methods it called, in order. */
  datatype Fetch = Fetch(status: Result<NodeStatus, TransportError>, calls: seq<RpcMethod>)

  /**
   * fetchNodeStatus: calls eth_blockNumber, eth_chainId and eth_syncing in
   * that order, stops at the first call that fails and returns its error,
   * and otherwise builds the status from the three results.
   */
  function FetchNodeStatus(rpc: RpcMethod -> Result<JsonValue, TransportError>,
                           formatOther: JsonValue -> string): (f: Fetch)
    ensures 1 <= |f.calls| <= 3 && f.calls == CallOrder[..|f.calls|]
    ensures forall i :: 0 <= i < |f.calls| - 1 ==> rpc(f.calls[i]).Success?
    ensures f.status.Failure? <==> rpc(f.calls[|f.calls| - 1]).Failure?
    ensures f.status.Failure? ==> f.status.error == rpc(f.calls[|f.calls| - 1]).error
    ensures f.status.Success? ==>
      |f.calls| == 3 && rpc(EthBlockNumber).Success? && rpc(EthChainId).Success? && rpc(EthSyncing).Success?
    ensures f.status.Success? ==>
      f.status.value.blockHeight == HexToString(rpc(EthBlockNumber).value)
      && f.status.value.chainId == HexToString(rpc(EthChainId).value)
      && f.status.value.syncing == SyncingText(rpc(EthSyncing).value, formatOther)
  {
    match rpc(EthBlockNumber)
    case Failure(e) => Fetch(Failure(e), [EthBlockNumber])
    case Success(blockNumHex) =>
      match rpc(EthChainId)
      case Failure(e) => Fetch(Failure(e), [EthBlockNumber, EthChainId])
      case Success(chainIdHex) =>
        match rpc(EthSyncing)
        case Failure(e) => Fetch(Failure(e), CallOrder)
        case Success(syncingResult) =>
          var status := NodeStatus(HexToString(blockNumHex), HexToString(chainIdHex),
                                   SyncingText(syncingResult, formatOther));
          Fetch(Success(status), CallOrder)
  }

  /** The status fails exactly when one of the three calls fails. */
  lemma FetchFailsIffSomeCallFails(rpc: RpcMethod -> Result<JsonValue, TransportError>,
                                   formatOther: JsonValue -> string)
    ensures FetchNodeStatus(rpc, formatOther).status.Failure?
      <==> rpc(EthBlockNumber).Failure? || rpc(EthChainId).Failure? || rpc(EthSyncing).Failure?
  {
    var f := FetchNodeStatus(rpc, formatOther);
    if |f.calls| == 3 {
      assert f.calls == CallOrder;
    } else if |f.calls| == 2 {
      assert f.calls == [EthBlockNumber, EthChainId];
    } else {
      assert f.calls == [EthBlockNumber];
    }
  }

  /**
   * The first call that fails decides the outcome: its error is returned and
   * no later method is called.
   */
  lemma FirstFailureStops(rpc: RpcMethod -> Result<JsonValue, TransportError>,
                          formatOther: JsonValue -> string, i: nat)
    requires i < 3 && rpc(CallOrder[i]).Failure?
    requires forall j :: 0 <= j < i ==> rpc(CallOrder[j]).Success?
    ensures FetchNodeStatus(rpc, formatOther).calls == CallOrder[..i + 1]
    ensures FetchNodeStatus(rpc, formatOther).status == Failure(rpc(CallOrder[i]).error)
  {
  }

  /**
   * The result depends on nothing but the outcomes of the calls actually
   * made: two upstreams that answer those calls alike give the same status
   * and the same calls, whatever they would have answered to the rest.
   */
  lemma FetchDependsOnlyOnCalls(rpc1: RpcMethod -> Result<JsonValue, TransportError>,
                                rpc2: RpcMethod -> Result<JsonValue, TransportError>,
                                formatOther: JsonValue -> string)
    requires forall i :: 0 <= i < |FetchNodeStatus(rpc1, formatOther).calls| ==>
      rpc1(FetchNodeStatus(rpc1, formatOther).calls[i]) == rpc2(FetchNodeStatus(rpc1, formatOther).calls[i])
    ensures FetchNodeStatus(rpc1, formatOther) == FetchNodeStatus(rpc2, formatOther)
  {
    var calls := FetchNodeStatus(rpc1, formatOther).calls;
    assert calls[0] == EthBlockNumber;
    if |calls| > 1 {
      assert calls[1] == EthChainId;
    }
    if |calls| > 2 {
      assert calls[2] == EthSyncing;
    }
  }

  /**
   * The status is a function of the three outcomes: the same outcomes give
   * the same status fields and the same calls.
   */
  lemma FetchDeterministic(rpc1: RpcMethod -> Result<JsonValue, TransportError>,
                           rpc2: RpcMethod -> Result<JsonValue, TransportError>,
                           formatOther: JsonValue -> string)
    requires rpc1(EthBlockNumber) == rpc2(EthBlockNumber)
    requires rpc1(EthChainId) == rpc2(EthChainId)
    requires rpc1(EthSyncing) == rpc2(EthSyncing)
    ensures FetchNodeStatus(rpc1, formatOther) == FetchNodeStatus(rpc2, formatOther)
  {
  }

  /**
   * With hex quantities b and c from eth_blockNumber and eth_chainId, the
   * status shows b as the block height and c as the chain id, in decimal:
   * the two are never swapped.
   */
  lemma FetchShowsDecimalQuantities(rpc: RpcMethod -> Result<JsonValue, TransportError>,
                                    formatOther: JsonValue -> string, b: nat, c: nat)
    requires b <= IntMax && c <= IntMax
    requires rpc(EthBlockNumber) == Success(JString("0x" + LowerHex(b)))
    requires rpc(EthChainId) == Success(JString("0x" + LowerHex(c)))
    requires rpc(EthSyncing).Success?
    ensures FetchNodeStatus(rpc, formatOther).status
      == Success(NodeStatus(FormatInt(b), FormatInt(c), SyncingText(rpc(EthSyncing).value, formatOther)))
  {
    HexRoundTrip(b);
    HexRoundTrip(c);
  }

  /**
   * Over callRPC, fetchNodeStatus fails exactly when one of the POSTs it
   * makes fails; a block-number response whose body does not decode is not
   * an error and shows as "N/A".
   */
  lemma FetchOverTransport<Body>(post: RpcRequest -> Result<Body, TransportError>,
                                 decodeResult: Body -> Option<JsonValue>,
                                 formatOther: JsonValue -> string)
    ensures var f := FetchNodeStatus(m => CallRpc(m, post, decodeResult), formatOther);
      && (f.status.Failure? <==> exists i :: 0 <= i < |f.calls| && post(NewRequest(f.calls[i])).Failure?)
      && (f.status.Failure? ==> f.status.error == post(NewRequest(f.calls[|f.calls| - 1])).error)
      && ((f.status.Success? && decodeResult(post(NewRequest(EthBlockNumber)).value).None?)
          ==> f.status.value.blockHeight == "N/A")
  {
    var rpc := m => CallRpc(m, post, decodeResult);
    var f := FetchNodeStatus(rpc, formatOther);
    if f.status.Failure? {
      var i := |f.calls| - 1;
      assert post(NewRequest(f.calls[i])).Failure?;
    } else {
      forall i | 0 <= i < |f.calls|
        ensures post(NewRequest(f.calls[i])).Success?
      {
        assert f.calls[i] in CallOrder;
      }
    }
  }
}
