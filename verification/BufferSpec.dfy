/** What the relay buffer of one connection does, on values (lab32v2/buffer/BufferImpl.cpp).
    The class in module BufferObjects is proved against these functions. */
module BufferSpec {
  import opened Wrappers
  import opened Parser
  import opened CacheSpec

  const BUF_SIZE := 1024 * 512

  datatype StatusHttp =
    | WriteRequestHeading | WriteRequestBody | ReadResponse
    | ReadRequest | WriteResponseHeading | WriteResponseBody
    | EndWork

  /** The fields of a buffer. A cache element is named by its creation number. */
  datatype Buf = Buf(
    statusClient: StatusHttp,
    statusHttpServer: StatusHttp,
    requestHeading: string,
    buf: string,
    isClientConnect: bool,
    isServerConnect: bool,
    isReadyToSend: bool,
    isEndSend: bool,
    isReadyConnectHttpServer: bool,
    lengthBody: int,
    parseResult: Option<ParseResult>,
    isHaveContentLengthResponse: bool,
    isAddDataToCash: bool,
    isDataGetCash: bool,
    countByteReadFromCash: nat,
    cashElement: Option<nat>,
    error: bool)

  const FRESH :=
    Buf(WriteRequestHeading, ReadRequest, "", "", false, false, false, false, false, 0, None,
        false, false, false, 0, None, false)

  const INCORRECT_HEADING := "incorrect heading\r\n"

  /** A buffer that reads from the cache or writes to it points to an element of the cache, and
      a buffer that awaits a response has neither met the cache nor lost its request. */
  predicate Wf(b: Buf, c: Cache) {
    && c.Wf()
    && (b.isAddDataToCash || b.isDataGetCash ==> b.cashElement.Some? && b.cashElement.value < |c.store|)
    && (b.statusHttpServer.WriteResponseHeading? ==> !b.isDataGetCash && !b.statusClient.WriteRequestHeading?)
  }

  /** When the next chunk is a response, the source follows the pointer to the parsed request. */
  predicate HasParsedRequest(b: Buf) {
    b.statusHttpServer.WriteResponseHeading? ==> b.statusClient.WriteRequestBody? || b.parseResult.Some?
  }

  /** The buffer and the cache after a call, and whether the call returned normally
      (the alternative is a `ParseException`). */
  datatype Out = Out(b: Buf, c: Cache, ok: bool)

  /** Lines 10-15: response bytes are not kept for a client that has left. */
  function Receive(b: Buf, chunk: string): Buf {
    b.(buf := if !b.isClientConnect && b.statusHttpServer.WriteResponseBody? then "" else b.buf + chunk)
  }

  function ReadFromSocket(hash: string -> int, b: Buf, c: Cache, chunk: string): (r: Out)
    requires Wf(b, c)
    ensures Wf(r.b, r.c) && |c.store| <= |r.c.store|
  {
    var b1 := Receive(b, chunk);
    hide Cache.Wf, OnRequestHeading, OnResponseHeading, OnResponseBody;
    if b.statusClient.WriteRequestHeading? then OnRequestHeading(hash, b1, c)
    else if b.statusClient.WriteRequestBody? then Out(OnRequestBody(b1, chunk), c, true)
    else if b.statusHttpServer.WriteResponseHeading? then OnResponseHeading(hash, b1, c)
    else if b.statusHttpServer.WriteResponseBody? then OnResponseBody(b1, c, chunk)
    else Out(b1, c, true)
  }

  /** The request heading is complete once the buffer holds a blank line. A heading that does not
      parse is answered with a fixed text; one found in the cache makes the client a reader. */
  function OnRequestHeading(hash: string -> int, b: Buf, c: Cache): (r: Out)
    requires Wf(b, c) && b.statusClient.WriteRequestHeading?
    ensures Wf(r.b, r.c) && |c.store| <= |r.c.store|
  {
    hide Cache.Wf, Find, AddUsers, FindEndHeading, ParsingHeading;
    var end := FindEndHeading(b.buf);
    if end.None? then Out(b, c, true)
    else
      var heading := b.buf[..end.value];
      var parsed := ParsingHeading(heading);
      if parsed.None? then Out(Reject(b, heading), c, false)
      else
        hide OnParsedRequest;
        OnParsedRequest(hash, b, c, heading, parsed.value)
  }

  function OnParsedRequest(hash: string -> int, b: Buf, c: Cache, heading: string, parsed: ParseResult): (r: Out)
    requires Wf(b, c) && b.statusClient.WriteRequestHeading?
    ensures Wf(r.b, r.c) && |c.store| <= |r.c.store|
  {
    hide Cache.Wf, Find, AddUsers, StartReading, StartRelay;
    var (c1, hit) := Find(c, hash(heading));
    if hit.Some? then Out(StartReading(b, heading, parsed, hit.value), AddUsers(c1, hit.value, 1), true)
    else Out(StartRelay(b, heading, parsed), c, true)
  }

  function Reject(b: Buf, heading: string): Buf {
    b.(requestHeading := heading, buf := INCORRECT_HEADING, statusClient := ReadResponse,
       isReadyToSend := true, isEndSend := true, error := true)
  }

  function StartReading(b: Buf, heading: string, parsed: ParseResult, id: nat): (r: Buf)
    ensures r.cashElement == Some(id) && r.statusClient.ReadResponse? && r.statusHttpServer == b.statusHttpServer
  {
    b.(requestHeading := heading, parseResult := Some(parsed), isDataGetCash := true, cashElement := Some(id),
       buf := "", statusClient := ReadResponse)
  }

  /** A miss: the origin must be contacted. A GET ends with its heading, any other request after
      as many body bytes as it announces. */
  function StartRelay(b: Buf, heading: string, parsed: ParseResult): (r: Buf)
    ensures r.cashElement == b.cashElement && r.statusHttpServer == b.statusHttpServer
    ensures r.isAddDataToCash == b.isAddDataToCash && r.isDataGetCash == b.isDataGetCash
  {
    var left := parsed.contentLength - (|b.buf| - |heading|);
    var isGet := parsed.kind.GetRequest?;
    b.(requestHeading := heading, parseResult := Some(parsed),
       isReadyConnectHttpServer := true, isReadyToSend := true,
       statusClient := if isGet then b.statusClient else WriteRequestBody,
       lengthBody := if isGet then b.lengthBody else left,
       isEndSend := b.isEndSend || isGet || left <= 0)
  }

  function OnRequestBody(b: Buf, chunk: string): Buf {
    var left := b.lengthBody - |chunk|;
    b.(isReadyToSend := true, lengthBody := left, isEndSend := b.isEndSend || left <= 0)
  }

  /** Only the successful response to a GET that announces its length is worth caching. */
  predicate IsCashingData(b: Buf, response: ParseResult) {
    && !response.responseWithError
    && |b.buf| + response.contentLength < SIZE_EACH_CASH_ELEMENT
    && b.parseResult.Some? && b.parseResult.value.kind.GetRequest?
    && response.haveContentLength
  }

  /** Adds an element that already holds `first` and whose origin is connected. */
  function Publish(c: Cache, request: string, h: int, size: nat, first: string): (r: (Cache, Option<nat>))
    requires c.Wf()
    ensures r.0.Wf() && |c.store| <= |r.0.store|
    ensures r.1.Some? ==> r.1.value == |c.store| && r.1.value < |r.0.store|
  {
    hide Add;
    var (c1, id) := Add(c, request, h, size);
    if id.None? then (c1, None)
    else
      var c2 := Append(c1, id.value, first);
      var c3 := SetDownloadEnd(c2, id.value, false);
      (SetServerConnect(c3, id.value, true), id)
  }

  /** Lines 72-84: the cache with an element for the response, if it may and can be cached. The
      inner option is a refusal by the cache, which leaves a null element. */
  function OpenElement(hash: string -> int, b: Buf, c: Cache, head: string, response: ParseResult)
    : (r: (Cache, Option<Option<nat>>))
    requires c.Wf()
    ensures r.0.Wf() && |c.store| <= |r.0.store|
    ensures r.1.Some? && r.1.value.Some? ==> r.1.value.value < |r.0.store|
  {
    hide Publish;
    var h := hash(b.requestHeading);
    if IsCashingData(b, response) && !Contains(c, h) then
      var (c1, id) := Publish(c, b.requestHeading, h, response.contentLength + |head|, b.buf);
      (c1, Some(id))
    else (c, None)
  }

  /** A buffer whose announced body has arrived tells its element that the download is over. */
  function MarkEnd(b: Buf, c: Cache): (r: Cache)
    requires Wf(b, c)
    ensures r.Wf() && |r.store| == |c.store|
  {
    if b.isAddDataToCash && b.isHaveContentLengthResponse && b.lengthBody <= 0
    then SetDownloadEnd(c, b.cashElement.value, true) else c
  }

  /** The buffer once the response heading, `headLength` bytes long, has been read. */
  function AfterHeading(b: Buf, headLength: nat, response: ParseResult, offer: Option<Option<nat>>): (r: Buf)
    requires headLength <= |b.buf|
    ensures r.statusHttpServer.WriteResponseBody? && r.statusClient == b.statusClient
    ensures r.isDataGetCash == b.isDataGetCash && r.isReadyConnectHttpServer == b.isReadyConnectHttpServer
    ensures r.cashElement == if offer.Some? then offer.value else b.cashElement
    ensures r.isAddDataToCash <==> if offer.Some? then offer.value.Some? else b.isAddDataToCash
  {
    var left := response.contentLength - (|b.buf| - headLength);
    var over := if response.haveContentLength then left <= 0 else FindEndBody(b.buf).Some?;
    b.(isAddDataToCash := if offer.Some? then offer.value.Some? else b.isAddDataToCash,
       cashElement := if offer.Some? then offer.value else b.cashElement,
       isReadyToSend := true,
       statusHttpServer := WriteResponseBody,
       isHaveContentLengthResponse := response.haveContentLength,
       lengthBody := if response.haveContentLength then left else b.lengthBody,
       isEndSend := b.isEndSend || over)
  }

  function OnResponseHeading(hash: string -> int, b: Buf, c: Cache): (r: Out)
    requires Wf(b, c) && !b.isDataGetCash
    ensures Wf(r.b, r.c) && |c.store| <= |r.c.store|
  {
    hide Cache.Wf, OpenElement, FindEndHeading, ParsingResponseHeading, AfterHeading, MarkEnd;
    var end := FindEndHeading(b.buf);
    if end.None? then Out(b, c, true)
    else
      var head := b.buf[..end.value];
      var response := ParsingResponseHeading(head);
      var (c1, offer) := OpenElement(hash, b, c, head, response);
      var b1 := AfterHeading(b, end.value, response, offer);
      Out(b1, MarkEnd(b1, c1), true)
  }

  /** The buffer after one more chunk of the body. */
  function AfterBody(b: Buf, length: nat): (r: Buf)
    ensures r.cashElement == b.cashElement && r.isDataGetCash == b.isDataGetCash
    ensures r.isAddDataToCash == b.isAddDataToCash && r.statusHttpServer == b.statusHttpServer
    ensures r.statusClient == b.statusClient && r.isReadyConnectHttpServer == b.isReadyConnectHttpServer
  {
    var left := b.lengthBody - length;
    var over := if b.isHaveContentLengthResponse then left <= 0 else FindEndBody(b.buf).Some?;
    b.(isReadyToSend := true,
       lengthBody := if b.isHaveContentLengthResponse then left else b.lengthBody,
       isEndSend := b.isEndSend || over)
  }

  function OnResponseBody(b: Buf, c: Cache, chunk: string): (r: Out)
    requires Wf(b, c)
    ensures Wf(r.b, r.c) && |c.store| <= |r.c.store|
  {
    hide Cache.Wf, AfterBody, MarkEnd;
    var c1 := if b.isAddDataToCash then Append(c, b.cashElement.value, chunk) else c;
    var b1 := AfterBody(b, |chunk|);
    Out(b1, MarkEnd(b1, c1), true)
  }

  function Min(a: nat, b: nat): nat { if a < b then a else b }

  /** The bytes of the next write; in cache mode they continue where the reader stopped.
      `unsent` is what the caller's string held before the call. */
  function SendBuf(b: Buf, c: Cache, unsent: string): (r: string)
    requires Wf(b, c)
  {
    if b.isDataGetCash then
      var content := c.store[b.cashElement.value].content;
      var at := b.countByteReadFromCash;
      if |content| > at then content[at..at + Min(|content| - at, BUF_SIZE - 1)] else unsent
    else
      b.buf[..Min(|b.buf|, BUF_SIZE - 1)]
  }

  /** Bookkeeping after a write of `sent`. */
  function ProofSend(b: Buf, c: Cache, sent: string): Buf
    requires Wf(b, c)
    requires !b.isDataGetCash ==> |sent| <= |b.buf|
  {
    if b.isDataGetCash then ProofSendFromCache(b, c.store[b.cashElement.value], |sent|)
    else AfterDrain(b.(buf := b.buf[|sent|..]))
  }

  function ProofSendFromCache(b: Buf, e: Elem, sent: nat): Buf {
    var count := b.countByteReadFromCash + sent;
    b.(countByteReadFromCash := count,
       isReadyToSend := b.isReadyToSend && |e.content| != count,
       isEndSend := b.isEndSend || e.downloadEnd,
       statusClient := if e.downloadEnd then EndWork else b.statusClient,
       error := b.error || (!e.downloadEnd && !e.serverConnected))
  }

  /** What happens when a write empties the buffer after the last byte of a message: the error text
      ends the exchange, the request hands over to the response, the response ends the exchange. */
  function AfterDrain(b: Buf): Buf {
    var empty := b.buf == "";
    var over := empty && b.isEndSend;
    var failed := over && b.statusClient.ReadResponse? && b.error;
    var turned := over && !failed && b.statusHttpServer.ReadRequest?;
    var done := over && !failed && !turned && b.statusClient.ReadResponse?;
    b.(isReadyToSend := b.isReadyToSend && (!empty || failed),
       isEndSend := b.isEndSend && !failed && !turned,
       statusClient := if failed || done then EndWork else if turned then ReadResponse else b.statusClient,
       statusHttpServer := if done then EndWork else if turned then WriteResponseHeading else b.statusHttpServer)
  }

  /** `isReadyToSend` may raise the flag when the element has grown past the reader. */
  function RefreshReady(b: Buf, c: Cache): Buf
    requires Wf(b, c)
  {
    b.(isReadyToSend := b.isReadyToSend
         || (b.isDataGetCash && |c.store[b.cashElement.value].content| > b.countByteReadFromCash))
  }
}
