# Goat node status monitor, modelled in Dafny

The monitor is a small HTTP service. For every request it asks a Goat
JSON-RPC node three things, in this order: `eth_blockNumber`, `eth_chainId`
and `eth_syncing`. It then answers with a four-line plain-text report, or
with a 500 when one of the calls fails in transport. The block height and
the chain ID arrive as `0x`-prefixed hex strings. `hexToString` converts
them to decimal by scanning with Go's `fmt.Sscanf(s, "0x%x", &v)` into a
zero-initialised `int` and printing that with `%d`.

The project is in five modules:

- `Wrappers` (`wrappers.dfy`): `Option` and `Result`.
- `Json` (`json.dfy`): the loosely typed value a JSON-RPC result decodes to.
- `GoFmt` (`gofmt.dfy`): the parts of Go's `fmt` that the monitor uses.
  - `ScanfHex` is `Sscanf` with format `"0x%x"` into an `int`. It matches
    the literal `0x`, then skips white space twice (once before the verb and
    once inside the integer scan). A newline there is an error. It accepts
    one sign and reads a greedy run of hex digits (at least one). Values
    outside the 64-bit `int` range are a range error. Nothing after the
    digits is read.
  - `FormatInt` is `%d`.
  - The `HexInput` datatype is a grammar of the inputs the scan reads: the
    literal, blanks, a sign, a maximal digit run and anything after it. The
    scan accepts exactly the grammar's inputs whose value fits a 64-bit
    `int`. One lemma says every grammar input scans to its value when that
    fits and fails otherwise; another says everything the scan accepts is in
    the grammar.
- `Monitor` (`monitor.dfy`): `callRPC` with its transport passed in,
  `hexToString` and `fetchNodeStatus`.
  - The upstream node is an oracle from method to outcome.
  - `FetchNodeStatus` also returns the trace of the calls it made.
- `Handler` (`handler.dfy`): `statusHandler` writing to a
  `ResponseWriter` class.
  - The class holds the status code, the header and the chunks written to
    the body.
  - `http.Error` is modelled as a method, in the form of recent `net/http`
    versions, which delete `Content-Length` before setting `Content-Type`
    and `X-Content-Type-Options`. Older versions only set the two headers.
    From the fresh writer the handler is given, both leave the same state.
  - The functions `AfterWrite`, `AfterError` and `AfterHandler` say what
    each operation leaves in the writer.

Behaviour of the code worth noting:

- `callRPC` is called with a nil `params` slice, which `encoding/json`
  encodes as JSON `null`. `NewRequest` has `params == None`.
- Only a value that is not a string gives `"N/A"`. A string that the scan
  does not accept gives `"0"`: `Sscanf` leaves `v` at its zero value and
  `%d` prints that. The value is a signed 64-bit `int`, so a sign is
  accepted, and a quantity of 2^63 or more also gives `"0"`.
- A nil syncing result (a body that does not decode, or a JSON-RPC error
  envelope without `result`) prints as `"<nil>"`, which is what `%v` gives
  for nil.

## Model

| member | source | states |
|---|---|---|
| GoFmt.ScanfHex | main.go:108 | Sscanf(s, "0x%x", &v) into an int: matches the literal 0x exactly, then the %x verb; only values that fit an int are stored, and nothing is stored without the literal |
| GoFmt.ScanHexVerb | main.go:108 | the %x verb after the literal: white space skipped twice, then the number; a stored value fits an int |
| GoFmt.ScanHexNumber | main.go:108 | an optional sign, at least one hex digit, the greedy digit run, then ParseInt; fails at the end of input or when neither a sign nor a hex digit comes first |
| GoFmt.SkipSpace | main.go:108 | skips white space and fails at a newline; what it leaves is described by SkipSpaceSkipsBlanks and SkipSpaceFailsAtNewline |
| GoFmt.HexRun | main.go:108 | the longest prefix made of hex digits: a prefix, all hex digits, followed by the end or a non-digit |
| GoFmt.ParseHexInt | main.go:108 | ParseInt(sign + digits, 16, 64): a stored value fits an int, has the magnitude the digits denote and is negative only with a minus sign; the range error happens only when the digits exceed 2^63-1 |
| GoFmt.LowerHexRoundTrip | main.go:108 | the hex digits of n read back as n |
| GoFmt.SkipSpaceSkipsBlanks | main.go:108 | skipping stops at the first non-space after a run of non-newline spaces, which it drops |
| GoFmt.SkipSpaceFailsAtNewline | main.go:108 | skipping fails exactly when a newline comes before the first non-space |
| GoFmt.SkipSpaceOverBlanks | main.go:108 | a leading run of non-newline spaces does not change the result of skipping |
| GoFmt.HexRunOfDigits | main.go:108 | the digit run of digits followed by a non-digit is exactly those digits |
| GoFmt.ScanfHexComplete | main.go:108 | every input in the grammar (literal 0x, blanks, sign, maximal digit run, anything) scans to its value when it fits an int, and fails otherwise |
| GoFmt.ScanfHexSound | main.go:108 | every input the scan accepts is in the grammar, with the value the scan gives |
| GoFmt.ScanfHexOverflow | main.go:108 | a hex quantity above 2^63-1 makes the scan fail |
| GoFmt.ScanfHexNoDigits | main.go:108 | literal 0x, a blank run, an optional sign and then no hex digit makes the scan fail |
| GoFmt.ScanfHexReadsADigit | main.go:108 | whenever the scan stores a value, some character after the literal is a hex digit |
| GoFmt.ScanfHexWithoutDigits | main.go:108 | a string with no hex digit after its first two characters is never scanned |
| GoFmt.ScanfHexExample | main.go:108 | "0x10" scans to 16 |
| GoFmt.FormatInt | main.go:109 | %d always gives a decimal numeral (optional minus, no leading zeros) that denotes the printed int |
| GoFmt.FormatIntExample | main.go:109 | 16 prints as "16" |
| GoFmt.FormatIntInjective | main.go:109 | different ints print differently |
| GoFmt.NumeralCanonical | main.go:109 | every decimal numeral is what %d prints for its value |
| Monitor.NewRequest | main.go:86 | the envelope has version "2.0", the called method's name, nil params and id 1 |
| Monitor.WireNames | main.go:62-72 | the three calls send the method names "eth_blockNumber", "eth_chainId" and "eth_syncing" |
| Monitor.RequestsNameTheirMethod | main.go:62-72 | the three calls send envelopes that differ, and only in the method name |
| Monitor.CallRpc | main.go:85-100 | a call fails exactly when the POST fails, with the POST's error; a body that does not decode gives null, not an error |
| Monitor.HexToString | main.go:102-110 | a non-string gives "N/A"; a string gives a decimal numeral, never "N/A", equal to the scanned value or 0 when the scan fails |
| Monitor.NotAvailableIffNotString | main.go:103-105 | "N/A" exactly for values that are not strings |
| Monitor.HexRoundTrip | main.go:107-109 | "0x" + lower-case hex of n, for 0 <= n < 2^63, converts to the decimal text of n |
| Monitor.HexToStringOfString | main.go:107-109 | a string converts to "0" or to the text of the value of a well-formed input equal to it |
| Monitor.HexToStringOfInput | main.go:107-109 | a well-formed input converts to its value's text, or "0" on overflow |
| Monitor.NoPrefixGivesZero | main.go:107-108 | a string not starting with the exact literal 0x converts to "0" |
| Monitor.NoDigitsGivesZero | main.go:107-108 | the literal 0x, a blank run, an optional sign and then no hex digit converts to "0" |
| Monitor.NoHexDigitsGivesZero | main.go:107-108 | a string with no hex digit after its first two characters converts to "0" |
| Monitor.OverflowGivesZero | main.go:107-108 | a hex quantity too large for an int converts to "0" |
| Monitor.QuantityExample | main.go:102-110 | "0x10" converts to "16" |
| Monitor.RejectedInputExamples | main.go:102-110 | "10", "0X10", "" and "0x" convert to "0"; null and false to "N/A" |
| Monitor.SyncingText | main.go:80 | %v of the syncing result: "<nil>" for nil, "true" or "false" for a bool, the string itself for a string; other values go through the rendering parameter |
| Monitor.FetchNodeStatus | main.go:60-83 | the calls made are a prefix of blockNumber, chainId, syncing; all but the last succeeded; a failure is the last call's error; on success all three calls were made and the fields come from the results of the first, second and third call |
| Monitor.FetchFailsIffSomeCallFails | main.go:62-75 | the status fails exactly when one of the three outcomes is an error |
| Monitor.FirstFailureStops | main.go:62-75 | when call i is the first to fail, exactly the calls up to i are made and its error is returned |
| Monitor.FetchDependsOnlyOnCalls | main.go:60-83 | two upstreams that answer the calls made alike give the same status and trace |
| Monitor.FetchDeterministic | main.go:60-83 | the same three outcomes give the same status and trace |
| Monitor.FetchShowsDecimalQuantities | main.go:77-81 | hex quantities b and c from the first and second call become block height and chain ID in decimal, never swapped |
| Monitor.FetchOverTransport | main.go:62-75 | over callRPC the status fails exactly when a POST made fails, with the last POST's error; an undecodable block-number body shows "N/A" |
| Handler.AfterWriteHeader | main.go:41 | the effect of WriteHeader: the first status is kept, header and body unchanged |
| Handler.AfterWrite | main.go:45-48 | the effect of Write: status 200 when none was set, header unchanged, the body grows by the data |
| Handler.AfterError | main.go:41 | the effect of http.Error: a status already set stays, otherwise the given one; Content-Length gone, the plain-text and nosniff headers set, other headers kept and no other header added; the body grows by the message and a newline |
| Handler.FailureMessage | main.go:41 | the error line is the prefix "Failed to fetch node status: " followed by the error's text |
| Handler.ReportChunks | main.go:45-48 | the report is four writes, each ending in a newline |
| Handler.AfterHandler | main.go:39-48 | the state statusHandler leaves a writer in: http.Error with the failure line and 500, or the four report writes in order |
| Handler.ResponseWriter.constructor | main.go:38 | a new writer has no status, an empty header and no body |
| Handler.ResponseWriter.SetHeader | main.go:41 | sets one header key and changes nothing else |
| Handler.ResponseWriter.DelHeader | main.go:41 | removes one header key and changes nothing else |
| Handler.ResponseWriter.WriteHeader | main.go:41 | the first status written is kept; header and body are unchanged |
| Handler.ResponseWriter.Write | main.go:45-48 | a write implies status 200 when none is set and appends the data |
| Handler.HttpError | main.go:41 | drops Content-Length, marks the body as plain text that must not be sniffed, writes the status, then the message and a newline |
| Handler.StatusHandler | main.go:38-49 | the writer ends in the state the fetched outcome determines: the error response or the four report writes, in order |
| Handler.ConcatAppend | main.go:45-48 | the body after one more write is the old body followed by the data |
| Handler.ReportChunksJoin | main.go:45-48 | the four report writes together are the report text |
| Handler.SuccessResponse | main.go:45-48 | on success a fresh writer ends with 200, an untouched header, exactly the four writes, and the report text with the chain ID line before the block height line |
| Handler.FailureResponse | main.go:40-43 | on failure a fresh writer ends with 500, the plain-text and nosniff headers, and the single body "Failed to fetch node status: " + error + newline |
| Handler.StatusIsSticky | main.go:41 | once a status is set, the handler's writes do not change it |
| Handler.ServedResponse | main.go:39-48 | given the three outcomes: the first call's error as a 500, else the second's, else the third's; when all succeed, a 200 with the report of the first, second and third result |
| Handler.ServedExample | main.go:39-48 | null block height, chain ID "0x10" and syncing false are reported as "N/A", "16" and "false" |
| Handler.ServedDeterministic | main.go:39-48 | the same upstream answers give the same status, header and body |

## Left out

- `main` (main.go:22-35): reading `GOAT_RPC_NODE`, the fallback URL, logging, route registration and `http.ListenAndServe` are process setup and I/O.
- Transport inside `callRPC` (main.go:86-97): JSON marshalling of the envelope, the HTTP POST, reading and closing the body and JSON decoding. `CallRpc` takes the POST and the decoding of `result` as parameters. When `io.ReadAll` fails, the bytes read so far reach `decodeResult` like any other body; `post` may return any body.
- `%v` of the syncing value (main.go:80): `SyncingText` gives `<nil>`, `true`/`false` and strings as Go prints them. Numbers, arrays and objects go through a rendering parameter, because they involve Go's float64 and map formatting.
- JSON numbers are kept as their literal text, where Go decodes them to float64. Only `%v` looks at them, and it is left open.
- The upstream oracle describes one request: each method is called at most once per request, so it fixes the answer to each call. `ServedDeterministic` compares two requests that get the same answers; how a node's answers vary between requests is not modelled.
- A call that never returns is not modelled: the upstream oracle and `post` always give an outcome. The source sets no timeout, so against a node that never answers the handler would never respond.
- Concurrency: the HTTP server runs handlers concurrently. That dispatch belongs to the platform, and each request has its own writer.
- Go's `int` is taken to be 64 bits wide.
- `ResponseWriter`: header changes made after `WriteHeader` are kept in the map, although Go would no longer send them; the handler makes none. Content-type sniffing of the success report, and the validation of status codes in `WriteHeader`, are not modelled.
- The `r *http.Request` argument of `statusHandler` is unused and not modelled.
