/**
  Request-parameter and content-type helpers of the HTTP server (pkg/httpserver/http_server.go).

  The echo context is reduced to the strings it would yield: a header value or a query/path
  parameter. The iotago decoders (hex, bech32) are function parameters. Error values keep only
  what the error handler reads from them: an `echo.HTTPError` with its status code, a wrapper
  added by `errors.WithMessage(f)`, or any other error.
*/
module HttpServer {
  import opened Wrappers

  const MaxUint32: nat := 0xFFFF_FFFF
  type Uint32 = x: int | 0 <= x <= MaxUint32

  newtype byte = x: int | 0 <= x < 256

  const StatusBadRequest: int := 400
  const StatusNotAcceptable: int := 406
  const StatusUnsupportedMediaType: int := 415
  const StatusInternalServerError: int := 500

  /** Byte lengths of the identifiers the path-parameter parsers accept (iotago constants). */
  const TransactionIDLength: nat := 32
  const MilestoneIDLength: nat := 32
  const AliasIDLength: nat := 32
  const NFTIDLength: nat := 32
  const FoundryIDLength: nat := 38

  datatype Error =
    | HTTPError(code: int)
    | WithMessage(cause: Error)
    | Plain

  const ErrInvalidParameter: Error := HTTPError(StatusBadRequest)
  const ErrNotAcceptable: Error := HTTPError(StatusNotAcceptable)
  const ErrUnsupportedMediaType: Error := HTTPError(StatusUnsupportedMediaType)

  /** Go's two return values: a value (the zero value when `err` is set) and an error. */
  datatype Returns<T> = Returns(value: T, err: Option<Error>)

  // ---------------------------------------------------------------------------
  // Content-type negotiation

  /** `strings.HasPrefix(s, prefix)`. */
  predicate HasPrefix(s: string, prefix: string) {
    |prefix| <= |s| && s[..|prefix|] == prefix
  }

  /** The first of `supported`, in order, that is a prefix of `header`. */
  function FirstPrefixMatch(header: string, supported: seq<string>): (r: Option<string>)
    ensures r.None? <==> forall k | 0 <= k < |supported| :: !HasPrefix(header, supported[k])
    ensures r.Some? ==> exists k | 0 <= k < |supported| ::
              && supported[k] == r.value && HasPrefix(header, r.value)
              && forall l | 0 <= l < k :: !HasPrefix(header, supported[l])
  {
    if supported == [] then None
    else if HasPrefix(header, supported[0]) then Some(supported[0])
    else
      var r := FirstPrefixMatch(header, supported[1..]);
      assert forall k | 1 <= k < |supported| :: supported[k] == supported[1..][k - 1];
      r
  }

  /** The content type to answer with, chosen from the Accept header. */
  function GetAcceptHeaderContentType(accept: string, supported: seq<string>): (r: Returns<string>)
    ensures r.err.None? <==> exists k | 0 <= k < |supported| :: HasPrefix(accept, supported[k])
    ensures r.err.None? ==> exists k | 0 <= k < |supported| ::
              && supported[k] == r.value && HasPrefix(accept, r.value)
              && forall l | 0 <= l < k :: !HasPrefix(accept, supported[l])
    ensures r.err.Some? ==> r == Returns("", Some(ErrNotAcceptable))
  {
    match FirstPrefixMatch(accept, supported)
    case Some(t) => Returns(t, None)
    case None => Returns("", Some(ErrNotAcceptable))
  }

  /** The content type of the request body, chosen from the Content-Type header. */
  function GetRequestContentType(contentType: string, supported: seq<string>): (r: Returns<string>)
    ensures r.err.None? <==> exists k | 0 <= k < |supported| :: HasPrefix(contentType, supported[k])
    ensures r.err.None? ==> exists k | 0 <= k < |supported| ::
              && supported[k] == r.value && HasPrefix(contentType, r.value)
              && forall l | 0 <= l < k :: !HasPrefix(contentType, supported[l])
    ensures r.err.Some? ==> r == Returns("", Some(ErrUnsupportedMediaType))
  {
    match FirstPrefixMatch(contentType, supported)
    case Some(t) => Returns(t, None)
    case None => Returns("", Some(ErrUnsupportedMediaType))
  }

  // ---------------------------------------------------------------------------
  // Decimal numbers

  predicate IsDigit(c: char) {
    '0' <= c <= '9'
  }

  predicate AllDigits(s: string) {
    forall k | 0 <= k < |s| :: IsDigit(s[k])
  }

  /** The value of a string of decimal digits, most significant first. */
  function DigitsValue(s: string): nat
    requires AllDigits(s)
  {
    if s == [] then 0 else DigitsValue(s[..|s| - 1]) * 10 + (s[|s| - 1] as int - '0' as int)
  }

  /** `strconv.ParseUint(s, 10, 32)`: no sign, no prefix, no underscores, at least one digit,
      and the value must fit in 32 bits. */
  function ParseUint(s: string): Option<Uint32> {
    if s != [] && AllDigits(s) && DigitsValue(s) <= MaxUint32 then Some(DigitsValue(s)) else None
  }

  function DigitChar(d: nat): (c: char)
    requires d < 10
    ensures IsDigit(c) && c as int - '0' as int == d
  {
    ('0' as int + d) as char
  }

  /** `strconv.Itoa` on a non-negative value: decimal digits without leading zeros. */
  function FormatNat(n: nat): string
    decreases n
  {
    if n < 10 then [DigitChar(n)] else FormatNat(n / 10) + [DigitChar(n % 10)]
  }

  /** `strconv.Itoa`. */
  function Itoa(n: int): string {
    if n < 0 then "-" + FormatNat(-n) else FormatNat(n)
  }

  /** The canonical decimal spelling: digits only, and no leading zero unless the number is 0. */
  predicate IsCanonicalDecimal(s: string) {
    s != [] && AllDigits(s) && (s[0] == '0' ==> |s| == 1)
  }

  lemma {:induction false} FormatNatParses(n: nat)
    ensures IsCanonicalDecimal(FormatNat(n)) && DigitsValue(FormatNat(n)) == n
    decreases n
  {
    if n >= 10 {
      FormatNatParses(n / 10);
      var s := FormatNat(n);
      assert s[..|s| - 1] == FormatNat(n / 10);
    }
  }

  lemma {:induction false} DigitsValueBound(s: string)
    requires AllDigits(s) && s != [] && s[0] != '0'
    ensures DigitsValue(s) >= Pow10(|s| - 1)
    decreases |s|
  {
    if |s| > 1 {
      DigitsValueBound(s[..|s| - 1]);
    }
  }

  function Pow10(k: nat): (r: nat)
    ensures r >= 1
  {
    if k == 0 then 1 else 10 * Pow10(k - 1)
  }

  /** Canonical decimal strings and the numbers they spell correspond one to one:
      formatting the value of a canonical string gives the string back. */
  lemma {:induction false} CanonicalDecimalRoundTrip(s: string)
    requires IsCanonicalDecimal(s)
    ensures FormatNat(DigitsValue(s)) == s
    decreases |s|
  {
    if |s| > 1 {
      var t := s[..|s| - 1];
      DigitsValueBound(t);
      assert t[0] == s[0];
      CanonicalDecimalRoundTrip(t);
      var n := DigitsValue(s);
      var d := s[|s| - 1] as int - '0' as int;
      assert n / 10 == DigitsValue(t) && n % 10 == d;
      assert s == t + [s[|s| - 1]];
    }
  }

  /** Every 32-bit value survives formatting and parsing back. */
  lemma ParseUintFormatNat(n: nat)
    requires n <= MaxUint32
    ensures ParseUint(FormatNat(n)) == Some(n)
  {
    FormatNatParses(n);
  }

  // ---------------------------------------------------------------------------
  // Query and path parameters

  function LowerChar(c: char): char {
    if 'A' <= c <= 'Z' then (c as int - 'A' as int + 'a' as int) as char else c
  }

  /** `strings.ToLower`, on ASCII letters. */
  function ToLower(s: string): (r: string)
    ensures |r| == |s| && forall k | 0 <= k < |s| :: r[k] == LowerChar(s[k])
  {
    seq(|s|, k requires 0 <= k < |s| => LowerChar(s[k]))
  }

  /** Lower-casing leaves a string of digits as it is and never turns a non-digit into one. */
  lemma LowerKeepsDigits(s: string)
    ensures AllDigits(ToLower(s)) <==> AllDigits(s)
    ensures AllDigits(s) ==> ToLower(s) == s
  {
  }

  /** A `uint32` query parameter, optionally bounded by `maxValue[0]` (inclusive). */
  function ParseUint32QueryParam(param: string, maxValue: seq<Uint32>): (r: Returns<Uint32>)
    ensures r.err.None? <==>
              && param != "" && AllDigits(param) && DigitsValue(param) <= MaxUint32
              && (|maxValue| > 0 ==> DigitsValue(param) <= maxValue[0])
    ensures r.err.None? ==> r.value == DigitsValue(param)
    ensures r.err.Some? ==> r == Returns(0, Some(WithMessage(ErrInvalidParameter)))
  {
    LowerKeepsDigits(param);
    var intString := ToLower(param);
    if intString == "" then Returns(0, Some(WithMessage(ErrInvalidParameter)))
    else
      match ParseUint(intString)
      case None => Returns(0, Some(WithMessage(ErrInvalidParameter)))
      case Some(value) =>
        if |maxValue| > 0 && value > maxValue[0] then Returns(0, Some(WithMessage(ErrInvalidParameter)))
        else Returns(value, None)
  }

  /** A milestone index path parameter: a decimal `uint32`. */
  function ParseMilestoneIndexParam(param: string): (r: Returns<Uint32>)
    ensures r.err.None? <==> param != "" && AllDigits(param) && DigitsValue(param) <= MaxUint32
    ensures r.err.None? ==> r.value == DigitsValue(param)
    ensures r.err.Some? ==> r == Returns(0, Some(WithMessage(ErrInvalidParameter)))
  {
    LowerKeepsDigits(param);
    var milestoneIndex := ToLower(param);
    if milestoneIndex == "" then Returns(0, Some(WithMessage(ErrInvalidParameter)))
    else
      match ParseUint(milestoneIndex)
      case None => Returns(0, Some(WithMessage(ErrInvalidParameter)))
      case Some(msIndex) => Returns(msIndex, None)
  }

  /** A bound equal to the value is accepted; a value one above the bound is not. Without a bound,
      the milestone-index parser and the `uint32` parser agree. */
  lemma ParseUint32Bound(n: nat, maxValue: Uint32)
    requires n <= MaxUint32
    ensures ParseUint32QueryParam(FormatNat(n), [maxValue]) ==
              if n <= maxValue then Returns(n, None) else Returns(0, Some(WithMessage(ErrInvalidParameter)))
    ensures ParseUint32QueryParam(FormatNat(n), []) == Returns(n, None)
  {
    FormatNatParses(n);
  }

  /** Without a maximum, the `uint32` query parser and the milestone-index parser agree on every string. */
  lemma UnboundedParsersAgree(param: string)
    ensures ParseUint32QueryParam(param, []) == ParseMilestoneIndexParam(param)
  {
  }

  /** A hex query parameter of at most `maxLen` decoded bytes. */
  function ParseHexQueryParam(param: string, maxLen: int, decodeHex: string -> Option<seq<byte>>)
    : (r: Returns<Option<seq<byte>>>)
    ensures r.err.None? <==> decodeHex(param).Some? && |decodeHex(param).value| <= maxLen
    ensures r.err.None? ==> r.value == decodeHex(param)
    ensures r.err.Some? ==> r == Returns(None, Some(WithMessage(ErrInvalidParameter)))
  {
    match decodeHex(param)
    case None => Returns(None, Some(WithMessage(ErrInvalidParameter)))
    case Some(paramBytes) =>
      if |paramBytes| > maxLen then Returns(None, Some(WithMessage(ErrInvalidParameter)))
      else Returns(Some(paramBytes), None)
  }

  /** The check every `Parse*IDParam` makes: the lower-cased parameter decodes as hex to exactly
      `idLength` bytes. */
  function DecodeID(param: string, idLength: nat, decodeHex: string -> Option<seq<byte>>): (r: Option<seq<byte>>)
    ensures r.Some? <==> decodeHex(ToLower(param)).Some? && |decodeHex(ToLower(param)).value| == idLength
    ensures r.Some? ==> r == decodeHex(ToLower(param)) && |r.value| == idLength
  {
    match decodeHex(ToLower(param))
    case None => None
    case Some(idBytes) => if |idBytes| != idLength then None else Some(idBytes)
  }

  /** A transaction ID; on error the zero ID is returned alongside the error. */
  function ParseTransactionIDParam(param: string, decodeHex: string -> Option<seq<byte>>): (r: Returns<seq<byte>>)
    ensures |r.value| == TransactionIDLength
    ensures r.err.None? <==> DecodeID(param, TransactionIDLength, decodeHex).Some?
    ensures r.err.Some? ==> r.err == Some(WithMessage(ErrInvalidParameter)) && forall k | 0 <= k < |r.value| :: r.value[k] == 0
    ensures r.err.None? ==> r.value == DecodeID(param, TransactionIDLength, decodeHex).value
  {
    match DecodeID(param, TransactionIDLength, decodeHex)
    case None => Returns(seq(TransactionIDLength, _ => 0), Some(WithMessage(ErrInvalidParameter)))
    case Some(id) => Returns(id, None)
  }

  /** The shape shared by the milestone, alias, NFT and foundry ID parsers: a pointer to the ID, or nil
      with the error. */
  function ParseIDPointer(param: string, idLength: nat, decodeHex: string -> Option<seq<byte>>)
    : (r: Returns<Option<seq<byte>>>)
    ensures r.err.None? <==> r.value.Some?
    ensures r.value.Some? ==> |r.value.value| == idLength && Some(r.value.value) == decodeHex(ToLower(param))
    ensures r.err.Some? ==> r.err == Some(WithMessage(ErrInvalidParameter))
    ensures decodeHex(ToLower(param)).Some? && |decodeHex(ToLower(param)).value| == idLength ==> r.err.None?
  {
    match DecodeID(param, idLength, decodeHex)
    case None => Returns(None, Some(WithMessage(ErrInvalidParameter)))
    case Some(id) => Returns(Some(id), None)
  }

  function ParseMilestoneIDParam(param: string, decodeHex: string -> Option<seq<byte>>): (r: Returns<Option<seq<byte>>>)
    ensures r.err.None? <==> decodeHex(ToLower(param)).Some? && |decodeHex(ToLower(param)).value| == MilestoneIDLength
    ensures r.value.Some? ==> |r.value.value| == MilestoneIDLength
  {
    ParseIDPointer(param, MilestoneIDLength, decodeHex)
  }

  function ParseAliasIDParam(param: string, decodeHex: string -> Option<seq<byte>>): (r: Returns<Option<seq<byte>>>)
    ensures r.err.None? <==> decodeHex(ToLower(param)).Some? && |decodeHex(ToLower(param)).value| == AliasIDLength
    ensures r.value.Some? ==> |r.value.value| == AliasIDLength
  {
    ParseIDPointer(param, AliasIDLength, decodeHex)
  }

  function ParseNFTIDParam(param: string, decodeHex: string -> Option<seq<byte>>): (r: Returns<Option<seq<byte>>>)
    ensures r.err.None? <==> decodeHex(ToLower(param)).Some? && |decodeHex(ToLower(param)).value| == NFTIDLength
    ensures r.value.Some? ==> |r.value.value| == NFTIDLength
  {
    ParseIDPointer(param, NFTIDLength, decodeHex)
  }

  function ParseFoundryIDParam(param: string, decodeHex: string -> Option<seq<byte>>): (r: Returns<Option<seq<byte>>>)
    ensures r.err.None? <==> decodeHex(ToLower(param)).Some? && |decodeHex(ToLower(param)).value| == FoundryIDLength
    ensures r.value.Some? ==> |r.value.value| == FoundryIDLength
  {
    ParseIDPointer(param, FoundryIDLength, decodeHex)
  }

  /** A bech32 address whose human-readable part must be the network's prefix. */
  function ParseBech32AddressQueryParam<A>(param: string, prefix: string,
                                           parseBech32: string -> Option<(string, A)>): (r: Returns<Option<A>>)
    ensures r.err.None? <==> parseBech32(ToLower(param)).Some? && parseBech32(ToLower(param)).value.0 == prefix
    ensures r.err.None? ==> r.value == Some(parseBech32(ToLower(param)).value.1)
    ensures r.err.Some? ==> r == Returns(None, Some(WithMessage(ErrInvalidParameter)))
  {
    match parseBech32(ToLower(param))
    case None => Returns(None, Some(WithMessage(ErrInvalidParameter)))
    case Some((hrp, address)) =>
      if hrp != prefix then Returns(None, Some(WithMessage(ErrInvalidParameter)))
      else Returns(Some(address), None)
  }

  // ---------------------------------------------------------------------------
  // Error responses

  /** `errors.As(err, &e)` for `e *echo.HTTPError`: the first HTTP error down the wrapping chain. */
  function AsHTTPError(err: Error): Option<int> {
    match err
    case HTTPError(code) => Some(code)
    case WithMessage(cause) => AsHTTPError(cause)
    case Plain => None
  }

  /** The status and the `code` field of the JSON error envelope the handler writes. */
  datatype ErrorResponse = ErrorResponse(status: int, code: string)

  function HandleError(err: Error): (r: ErrorResponse)
    ensures r.status >= 0 ==> IsCanonicalDecimal(r.code) && DigitsValue(r.code) == r.status
    ensures r.status < 0 ==> |r.code| > 1 && r.code[0] == '-' && IsCanonicalDecimal(r.code[1..]) && DigitsValue(r.code[1..]) == -r.status
  {
    var statusCode := match AsHTTPError(err) case Some(code) => code case None => StatusInternalServerError;
    FormatNatParses(if statusCode < 0 then -statusCode else statusCode);
    assert statusCode < 0 ==> Itoa(statusCode)[1..] == FormatNat(-statusCode);
    ErrorResponse(statusCode, Itoa(statusCode))
  }

  /** However deeply an error is wrapped, the handler answers as for the error itself: with the code
      of the first HTTP error in the chain, or 500 when there is none. */
  lemma {:induction false} HandleErrorStatus(err: Error, depth: nat)
    ensures HandleError(Wrap(err, depth)) == HandleError(err)
    ensures AsHTTPError(err).Some? ==> HandleError(err).status == AsHTTPError(err).value
    ensures AsHTTPError(err).None? ==> HandleError(err) == ErrorResponse(StatusInternalServerError, "500")
  {
    if depth > 0 {
      HandleErrorStatus(err, depth - 1);
    }
  }

  /** `err` wrapped `depth` times by `errors.WithMessage`. */
  function Wrap(err: Error, depth: nat): Error {
    if depth == 0 then err else WithMessage(Wrap(err, depth - 1))
  }

  /** Every parameter error of this file is answered with 400 Bad Request. */
  lemma ParameterErrorsAreBadRequest(param: string, maxValue: seq<Uint32>, maxLen: int, idLength: nat,
                                     decodeHex: string -> Option<seq<byte>>)
    ensures var r := ParseUint32QueryParam(param, maxValue);
            r.err.Some? ==> HandleError(r.err.value) == ErrorResponse(StatusBadRequest, "400")
    ensures var r := ParseHexQueryParam(param, maxLen, decodeHex);
            r.err.Some? ==> HandleError(r.err.value) == ErrorResponse(StatusBadRequest, "400")
    ensures var r := ParseMilestoneIndexParam(param);
            r.err.Some? ==> HandleError(r.err.value) == ErrorResponse(StatusBadRequest, "400")
    ensures var r := ParseTransactionIDParam(param, decodeHex);
            r.err.Some? ==> HandleError(r.err.value) == ErrorResponse(StatusBadRequest, "400")
    ensures var r := ParseIDPointer(param, idLength, decodeHex);
            r.err.Some? ==> HandleError(r.err.value) == ErrorResponse(StatusBadRequest, "400")
  {
  }
}
