# inx-app node bridge and HTTP helpers, modelled in Dafny

This project models two parts of the inx-app Go library.

**Ledger-update batch reassembler** (`NodeBridge.ListenToLedgerUpdates`, module `LedgerUpdates` in
`ledger.dfy`). The node streams ledger updates record by record. A batch opens with a BEGIN marker,
collects consumed (spent) and created outputs, and closes with an END marker that declares the
milestone index and both counts. The loop keeps at most one open `LedgerUpdate`. It checks each batch
at its END marker, hands it to the `consume` callback, and clears the accumulator. It fails with
`ErrLedgerUpdateTransactionAlreadyInProgress`, `ErrLedgerUpdateInvalidOperation` or
`ErrLedgerUpdateEndedAbruptly` on protocol violations.

- The loop is the method `ListenToLedgerUpdates`. It is proved equal to the specification function
  `Run`/`RunFrom`, one receive per step.
- The properties are lemmas about `RunFrom`. They cover whole batches, the error paths, and a
  whole-run statement: every delivered batch is framed by its own BEGIN and END markers, in END order.
- The stream is a sequence of `Step`s. Each step holds what `Recv` returned (a record, `io.EOF`, a
  `Canceled` status, or another error) and whether `ctx.Err()` was set afterwards. Reading past the end
  of the sequence behaves like `io.EOF`.
- The source converts lengths with `uint32(len(...))`. The model writes this out as
  `Truncate32` (mod 2^32).
- Records with an unknown op or marker type fall through both type switches. The model skips them.

**HTTP request helpers** (module `HttpServer` in `http_server.dfy`). This covers content-type
negotiation by first prefix match, decimal `uint32` parameters with an optional inclusive maximum,
and the length checks around hex-decoded IDs. It also covers the status code and envelope `code`
chosen by the error handler. The echo context is reduced to the header or parameter string it would
return. The iotago decoders are function parameters.

The source checks the context after `Recv` returns, not before the read. So a record received after
cancellation is dropped and the loop returns nil (`StreamEndDropsOpenBatch`, `ListenToLedgerUpdates`).
End of stream or cancellation in the middle of a batch also returns nil and delivers nothing. The
model keeps both behaviours.

## Model

| member | source | states |
|---|---|---|
| `LedgerUpdates.ListenToLedgerUpdates` | pkg/nodebridge/ledger.go:38-104 | The loop returns exactly the error, delivers exactly the batches, and stops at exactly the record that the step-by-step specification `Run` gives |
| `LedgerUpdates.RunFrom` | pkg/nodebridge/ledger.go:39-104 | The loop stops at or after its start position. Delivered batches are only ever appended. Running off the end of the stream returns nil |
| `LedgerUpdates.Truncate32` | pkg/nodebridge/ledger.go:76-77 | `uint32(n)` is `n` itself for every length below 2^32 |
| `LedgerUpdates.Receive` | pkg/nodebridge/ledger.go:40-51 | EOF or a Canceled status returns nil. Otherwise a cancelled context returns nil. Otherwise any other receive error is returned verbatim. Only then is the record dispatched. Shown in `StreamEndDropsOpenBatch` and `TransportErrorReturned` |
| `LedgerUpdates.Dispatch` | pkg/nodebridge/ledger.go:53-101 | The type switch on the record's op and marker type, from the two states (no open batch, open batch). Shown in `AbsorbItem`, `SkipRun`, `CompleteBatch`, `SecondBeginRejected` and `OrphanRejected` |
| `LedgerUpdates.AbsorbItem` | pkg/nodebridge/ledger.go:89-100 | With a batch open, a consumed item goes to the end of `Consumed`, a created item to the end of `Created`, and a skipped record changes nothing. Nothing is delivered and the loop continues |
| `LedgerUpdates.SkipRun` | pkg/nodebridge/ledger.go:53-101 | Records with an unrecognised op or marker type change neither the accumulator nor the deliveries, open batch or not |
| `LedgerUpdates.OpenRun` | pkg/nodebridge/ledger.go:89-100 | Across any run of items, the open batch's two lists grow by exactly the consumed and the created payloads of the run, each in arrival order |
| `LedgerUpdates.CompleteBatch` | pkg/nodebridge/ledger.go:59-85 | BEGIN, items, END: the batch built holds the BEGIN's index and exactly the items between. If the END's truncated counts or index disagree, the loop returns EndedAbruptly and delivers nothing. Otherwise the batch is delivered once. A callback error is returned unchanged and nothing after the END is read. Otherwise the loop continues with no batch open |
| `LedgerUpdates.WellFormedBatchDelivered` | pkg/nodebridge/ledger.go:64-85 | An END that declares the batch's true index and counts always delivers exactly that batch next. If the callback fails, that failure is the loop's result at the END |
| `LedgerUpdates.TwoBatchesInOrder` | pkg/nodebridge/ledger.go:82-85 | Two consecutive accepted batches are delivered in END order, each with only its own items, and the accumulator starts empty again |
| `LedgerUpdates.SecondBeginRejected` | pkg/nodebridge/ledger.go:61-63 | A BEGIN while a batch is open returns TransactionAlreadyInProgress at that record, and the open batch is never delivered |
| `LedgerUpdates.OrphanRejected` | pkg/nodebridge/ledger.go:73-75 | With no batch open, an END, a consumed item or a created item returns InvalidOperation at that record, after any number of skipped records |
| `LedgerUpdates.StreamEndDropsOpenBatch` | pkg/nodebridge/ledger.go:41-48 | EOF, a Canceled status, a cancelled context after a receive, or the end of the stream in the middle of a batch returns nil, and the partial batch is not delivered |
| `LedgerUpdates.TransportErrorReturned` | pkg/nodebridge/ledger.go:49-51 | Any other receive error is returned verbatim, also in the middle of a batch, which is dropped |
| `LedgerUpdates.DeliveredBatchesAreFramed` | pkg/nodebridge/ledger.go:53-85 | Over any run, every delivered batch has its own BEGIN and END, with only items between them. It carries both markers' index and the END's counts, and holds exactly the items between them. Deliveries follow strictly increasing END positions, so there is at most one per END. Only the last may have been refused by the callback, and then its error is the loop's result at that END |
| `HttpServer.FirstPrefixMatch` | pkg/httpserver/http_server.go:115-120 | Returns the first supported type, in argument order, that is a prefix of the header. Returns none exactly when no supported type is a prefix |
| `HttpServer.GetAcceptHeaderContentType` | pkg/httpserver/http_server.go:113-122 | Succeeds exactly when some supported type prefixes the Accept header, and returns the first one. Otherwise it returns "" with ErrNotAcceptable (406) |
| `HttpServer.GetRequestContentType` | pkg/httpserver/http_server.go:124-133 | The same first-prefix rule on the Content-Type header. Otherwise it returns "" with ErrUnsupportedMediaType (415) |
| `HttpServer.ParseUint32QueryParam` | pkg/httpserver/http_server.go:139-157 | Succeeds exactly when the parameter is a non-empty string of decimal digits whose value fits in 32 bits and is at most `maxValue[0]` when a maximum is given. It then returns that value. Otherwise it returns 0 with ErrInvalidParameter |
| `HttpServer.ParseMilestoneIndexParam` | pkg/httpserver/http_server.go:237-249 | Succeeds exactly when the parameter is a non-empty decimal string whose value fits in 32 bits, and returns that value. Otherwise it returns 0 with ErrInvalidParameter |
| `HttpServer.ParseUint32Bound` | pkg/httpserver/http_server.go:150-156 | A value equal to the maximum is accepted and a larger one is rejected; without a maximum every 32-bit value's decimal spelling is accepted as that value |
| `HttpServer.UnboundedParsersAgree` | pkg/httpserver/http_server.go:237-249 | Without a maximum, the `uint32` query parser and the milestone-index parser give the same result on every parameter string |
| `HttpServer.LowerKeepsDigits` | pkg/httpserver/http_server.go:140 | Lower-casing leaves a digit string unchanged and never turns a non-digit into a digit, so it does not change what the decimal parsers accept |
| `HttpServer.FormatNatParses` | pkg/httpserver/http_server.go:67 | `strconv.Itoa` of a non-negative status gives a canonical decimal string whose value is that status |
| `HttpServer.CanonicalDecimalRoundTrip` | pkg/httpserver/http_server.go:145 | Formatting the value of a canonical decimal string gives the string back, so canonical strings and numbers correspond one to one |
| `HttpServer.ParseUintFormatNat` | pkg/httpserver/http_server.go:145 | `strconv.ParseUint(s, 10, 32)` parses the decimal spelling of every 32-bit value back to that value |
| `HttpServer.ParseHexQueryParam` | pkg/httpserver/http_server.go:159-171 | Succeeds exactly when the parameter decodes as hex to at most `maxLen` bytes, and returns those bytes. Otherwise it returns nil with ErrInvalidParameter |
| `HttpServer.DecodeID` | pkg/httpserver/http_server.go:210-219 | Accepts exactly when the lower-cased parameter decodes to exactly the ID length, and returns those bytes |
| `HttpServer.ParseTransactionIDParam` | pkg/httpserver/http_server.go:208-224 | Always returns a 32-byte ID. It succeeds exactly when the decoded length is 32, and then the ID is the decoded bytes. On error the ID is all zeros, with ErrInvalidParameter |
| `HttpServer.ParseIDPointer` | pkg/httpserver/http_server.go:251-267 | A pointer result is present exactly when there is no error. Its bytes are the decoded parameter and have exactly the ID length. Any decoding or length failure gives ErrInvalidParameter |
| `HttpServer.ParseMilestoneIDParam` | pkg/httpserver/http_server.go:259-261 | Succeeds exactly when the decoded length is 32 (MilestoneIDLength) |
| `HttpServer.ParseAliasIDParam` | pkg/httpserver/http_server.go:277-279 | Succeeds exactly when the decoded length is 32 (AliasIDLength) |
| `HttpServer.ParseNFTIDParam` | pkg/httpserver/http_server.go:295-297 | Succeeds exactly when the decoded length is 32 (NFTIDLength) |
| `HttpServer.ParseFoundryIDParam` | pkg/httpserver/http_server.go:313-315 | Succeeds exactly when the decoded length is 38 (FoundryIDLength) |
| `HttpServer.ParseBech32AddressQueryParam` | pkg/httpserver/http_server.go:182-195 | Succeeds exactly when the lower-cased parameter parses and its human-readable part equals the network prefix. It then returns the parsed address. Otherwise it returns nil with ErrInvalidParameter |
| `HttpServer.HandleError` | pkg/httpserver/http_server.go:52-68 | The envelope's `code` is the decimal spelling of the response status, with a minus sign for a negative code |
| `HttpServer.HandleErrorStatus` | pkg/httpserver/http_server.go:58-65 | The status is the code of the first HTTP error down the wrapping chain, or 500 (code "500") when there is none. Wrapping an error with a message does not change the response |
| `HttpServer.ParameterErrorsAreBadRequest` | pkg/httpserver/http_server.go:28-30 | Every error from the `uint32`, milestone-index, hex and ID parameter parsers is answered with status 400 and code "400" |

## Left out

- The gRPC request and stream set-up (pkg/nodebridge/ledger.go:28-36) and the transport behind `Recv` are foreign calls. The model starts with the stream open and takes the receive results as input. The range request and its failure path are not modelled.
- Debug logging of markers (pkg/nodebridge/ledger.go:60, 72) has no effect on behaviour and is not modelled.
- The contents of `inx.LedgerSpent` and `inx.LedgerOutput` are opaque type parameters.
- ListenToLedgerUpdates: the `consume` callback is a pure function of the batch. A callback whose answer depends on its own earlier calls is not captured.
- ListenToLedgerUpdates: the accumulator is a value, not a pointer shared with the callback. The source never touches a batch again after handing it over, so sharing is not observable in the loop.
- ListenToLedgerUpdates: the loop reads a finite sequence. A stream that never ends or blocks forever is not modelled, and the end of the sequence reads as `io.EOF`.
- Error identities are simplified. `errors.Is(err, io.EOF)` and `status.Code(err) == codes.Canceled` are the `EOF` and `Canceled` receive results. Every other error is an opaque `External` value, compared by value rather than by pointer.
- `NewEcho`, `JSONResponse`, the Recover middleware and the request logger (pkg/httpserver/http_server.go:37-39, 73-111) are web-framework wiring and I/O.
- `ParseBoolQueryParam`, `ParseBlockIDParam` and `ParseOutputIDParam` only wrap `strconv.ParseBool`, `iotago.BlockIDFromHexString` and `iotago.OutputIDFromHex`, whose rules are not visible here.
- `ParseUnixTimestampQueryParam` (`time.Unix`) and `GetURL` (`net.JoinHostPort`, `fmt`) are library formatting and time conversion.
- The hex and bech32 decoders are function parameters, and only the checks around them are modelled. The ID lengths (32 bytes; 38 for foundry IDs) are iotago constants, not part of the visible source.
- Error message text (`fmt`, `errors.WithMessagef`) is not modelled. Only which error is returned, and which HTTP status it carries, is.
- ToLower: only ASCII letters are lower-cased. Go's `strings.ToLower` also maps other Unicode letters, but this only affects the decoders' input, since digits are never produced by it.
- ParseUint: the distinction between `strconv`'s syntax and range errors only reaches the message text, so the model has a single failure.
- HandleError: `errors.As` is modelled over the `errors.WithMessage` wrapping chain only. Other wrapper types and `echo.HTTPError`'s own message are not modelled.
