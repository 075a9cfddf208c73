/** The invariants of the proxy: what holds of the cache and of the connections in every history, and
    what holds besides of a connection as long as its own peers send in turn. */
module ProxyInvariant {
  import opened Wrappers
  import opened Parser
  import opened CacheSpec
  import opened BufferSpec
  import opened ProxySystem

  // ----- Framing, read off the bytes alone (Content-Length case of section 6.3 of RFC 9112) -----

  predicate HasHeading(s: string) { FindEndHeading(s).Some? }

  function Heading(s: string): string
    requires HasHeading(s)
  {
    s[..FindEndHeading(s).value]
  }

  function Response(s: string): ParseResult
    requires HasHeading(s)
  {
    ParsingResponseHeading(Heading(s))
  }

  /** The response so far has a complete heading that announces a length. */
  predicate Announced(s: string) { HasHeading(s) && Response(s).haveContentLength }

  /** How many bytes the announced response has in all. */
  function Due(s: string): nat
    requires HasHeading(s)
  {
    |Heading(s)| + Response(s).contentLength
  }

  predicate Complete(s: string) { Announced(s) && |s| >= Due(s) }

  /** More bytes never change what the heading announced. */
  lemma FramingIsStable(s: string, t: string)
    requires HasHeading(s)
    ensures HasHeading(s + t) && Heading(s + t) == Heading(s)
    ensures Due(s + t) == Due(s) && (Announced(s + t) <==> Announced(s))
  {
    HeadingEndIsStable(s, t);
  }

  // ----- The phases of a connection -----

  /** No response byte has been seen. */
  ghost predicate NoResponse(k: Conn) { k.respIn == "" && k.respOut == "" && k.late == "" }

  ghost predicate Plain(k: Conn) { !k.b.isDataGetCash && !k.b.error }

  /** The buffer is ready to send exactly while it holds unsent bytes. */
  ghost predicate ReadyMeansData(k: Conn) { k.b.isReadyToSend <==> k.b.buf != "" }

  ghost predicate InRequestHeading(k: Conn) {
    && k.user && !k.server && Plain(k) && NoResponse(k) && !k.b.isAddDataToCash
    && k.b.statusClient.WriteRequestHeading? && k.b.statusHttpServer.ReadRequest?
    && !k.b.isEndSend && !k.b.isReadyToSend
    && k.reqOut == "" && k.b.buf == k.reqIn && !HasHeading(k.reqIn)
    && k.b.countByteReadFromCash == 0 && k.cashOut == ""
  }

  /** The request heading has been read and parsed. */
  ghost predicate Parsed(k: Conn) {
    && HasHeading(k.reqIn) && k.b.requestHeading == Heading(k.reqIn)
    && k.b.parseResult.Some? && k.b.parseResult == ParsingHeading(k.b.requestHeading)
  }

  /** A GET is over with its heading, another request after the body it announced. */
  ghost predicate RequestFramed(k: Conn)
    requires Parsed(k)
  {
    if k.b.parseResult.value.kind.GetRequest? then k.b.statusClient.WriteRequestHeading? && k.b.isEndSend
    else
      && k.b.statusClient.WriteRequestBody?
      && k.b.lengthBody == k.b.parseResult.value.contentLength - (|k.reqIn| - |k.b.requestHeading|)
      && (k.b.isEndSend <==> k.b.lengthBody <= 0)
  }

  ghost predicate InRequest(k: Conn) {
    && k.user && Plain(k) && NoResponse(k) && !k.b.isAddDataToCash
    && Parsed(k) && RequestFramed(k)
    && (if k.server then k.b.statusHttpServer.ReadRequest? else k.b.statusHttpServer.EndWork?)
    && k.reqOut + k.b.buf == k.reqIn && ReadyMeansData(k)
    && (k.b.isEndSend ==> k.b.buf != "")
  }

  ghost predicate InResponseHeading(k: Conn) {
    && k.user && k.server && Plain(k) && Parsed(k) && !k.b.isAddDataToCash
    && k.b.statusClient.ReadResponse? && k.b.statusHttpServer.WriteResponseHeading?
    && !k.b.isEndSend && !k.b.isReadyToSend
    && k.reqOut == k.reqIn && k.respOut == "" && k.late == ""
    && k.b.buf == k.respIn && !HasHeading(k.respIn)
  }

  /** The counter of missing body bytes depends on the bytes received, not on their chunks. */
  ghost predicate ResponseFramed(k: Conn) {
    && HasHeading(k.respIn)
    && k.b.isHaveContentLengthResponse == Response(k.respIn).haveContentLength
    && (k.b.isHaveContentLengthResponse ==>
          && k.b.lengthBody == Due(k.respIn) - |k.respIn|
          && (k.b.isEndSend <==> k.b.lengthBody <= 0))
  }

  /** What the client was sent, followed by what waits in the buffer, is what was received. */
  ghost predicate Relayed(k: Conn) {
    k.reqOut == k.reqIn && k.respOut + k.b.buf == k.respIn + k.late
  }

  /** The body is being relayed; the client may have left if the response is being cached. */
  ghost predicate InResponseBody(k: Conn) {
    && k.server && Plain(k) && Parsed(k)
    && k.b.statusHttpServer.WriteResponseBody? && ResponseFramed(k) && k.late == ""
    && (if k.user then k.b.statusClient.ReadResponse? && Relayed(k) && ReadyMeansData(k)
        else k.b.statusClient.EndWork? && k.b.isAddDataToCash)
  }

  /** The origin has left first; the client gets what is still in the buffer. */
  ghost predicate OriginGone(k: Conn) {
    && k.user && !k.server && Plain(k)
    && k.b.statusClient.ReadResponse? && k.b.statusHttpServer.EndWork?
    && Relayed(k) && k.late == ""
    && (if HasHeading(k.respIn) then ReadyMeansData(k) else !k.b.isReadyToSend)
    && (k.b.isEndSend && Announced(k.respIn) ==> Complete(k.respIn))
  }

  /** The exchange is over: everything received in time has been sent. */
  ghost predicate Finished(k: Conn) {
    && (k.user || (k.server && k.b.isAddDataToCash)) && Plain(k)
    && k.b.statusClient.EndWork? && k.b.statusHttpServer.EndWork?
    && k.b.isEndSend
    && k.reqOut == k.reqIn && k.respOut == k.respIn
    && (k.user ==> k.b.buf == k.late)
    && (Announced(k.respIn) ==> Complete(k.respIn))
  }

  ghost predicate Rejected(k: Conn) {
    && k.user && !k.server && !k.b.isDataGetCash && k.b.error && k.respIn == "" && k.late == ""
    && !k.b.isAddDataToCash && k.b.statusHttpServer.ReadRequest?
    && (k.b.statusClient.ReadResponse? || k.b.statusClient.EndWork?)
    && (k.b.statusClient.ReadResponse? ==> k.b.isEndSend && ReadyMeansData(k))
    && k.reqOut == "" && k.respOut + k.b.buf == INCORRECT_HEADING
  }

  /** What a cache reader has written so far, and where it stands in its loop. */
  ghost predicate ReaderData(k: Conn, e: Elem) {
    var at := k.b.countByteReadFromCash;
    && at <= |e.content|
    && (k.b.isReadyToSend ==> at < |e.content|)
    && (k.reader.SendWrite? ==> k.b.isReadyToSend)
    && (if k.reader.SendProof? then
          && k.reader.sent != "" && at + |k.reader.sent| <= |e.content|
          && k.reader.sent == e.content[at..at + |k.reader.sent|]
          && k.cashOut == e.content[..at + |k.reader.sent|]
        else k.cashOut == e.content[..at])
    && (AtFinal(k.reader) ==> !e.serverConnected)
    && (k.reader.Left? && !k.reader.writeFailed ==>
          if k.reader.final then at == |e.content| else !k.run)
  }

  predicate AtFinal(pc: ReaderPc) {
    match pc
    case SendTest(final) => final
    case SendWrite(final) => final
    case SendProof(final, _) => final
    case Left(final, _) => final
    case _ => false
  }

  ghost predicate InCache(hash: string -> int, k: Conn, store: seq<Elem>) {
    && k.user && !k.server && k.b.isDataGetCash && !k.b.isAddDataToCash
    && k.b.statusHttpServer.ReadRequest?
    && (k.b.statusClient.ReadResponse? || k.b.statusClient.EndWork?)
    && !k.reader.NoReader? && Parsed(k) && NoResponse(k) && k.reqOut == ""
    && k.b.cashElement.Some? && k.b.cashElement.value < |store|
    && store[k.b.cashElement.value].hash == hash(k.b.requestHeading)
    && ReaderData(k, store[k.b.cashElement.value])
  }

  ghost predicate Dead(k: Conn) { !k.user && !k.server }

  ghost predicate InSomePhase(hash: string -> int, k: Conn, store: seq<Elem>) {
    || InRequestHeading(k)
    || InRequest(k)
    || InResponseHeading(k)
    || InResponseBody(k)
    || OriginGone(k)
    || Finished(k)
    || Rejected(k)
    || InCache(hash, k, store)
    || Dead(k)
  }

  /** Who points to whom: the buffer lives exactly as long as an endpoint does, it is deleted once,
      at most one origin at a time is attached to it, and the endpoints know each other exactly while both
      exist. */
  ghost predicate Owned(k: Conn) {
    && k.origins == (if k.server then 1 else 0)
    && k.frees == (if k.user || k.server then 0 else 1)
    && k.b.isClientConnect == k.user
    && !k.b.isReadyConnectHttpServer
    && k.b.isServerConnect == k.server
    && k.userHasPair == (k.user && k.server)
    && k.serverKnowsUser == (k.user && k.server)
    && (!k.b.isDataGetCash ==> k.reader.NoReader?)
  }

  /** What a connection that caches its response knows about its element, for good: the element
      holds the response bytes received so far, and its flags tell how the download stands. */
  ghost predicate WriterOf(k: Conn, e: Elem) {
    && Parsed(k) && k.b.parseResult.value.kind.GetRequest?
    && Announced(k.respIn) && !Response(k.respIn).responseWithError
    && k.b.isHaveContentLengthResponse && !k.b.isDataGetCash
    && e.content == k.respIn
    && e.heading == k.b.requestHeading
    && e.reserved == Due(k.respIn) + |k.b.requestHeading|
    && (e.downloadEnd <==> Complete(k.respIn))
    && (e.serverConnected <==> k.server)
  }

  ghost predicate Writes(k: Conn, store: seq<Elem>) {
    k.b.isAddDataToCash ==>
      && k.b.cashElement.Some? && k.b.cashElement.value < |store|
      && WriterOf(k, store[k.b.cashElement.value])
  }

  ghost predicate ConnInv(hash: string -> int, k: Conn, store: seq<Elem>) {
    Owned(k) && Writes(k, store) && InSomePhase(hash, k, store)
  }

  // ----- What one action may do to the cache -----

  /** The origin's side of an element, which only its writer changes. */
  ghost predicate SameResponse(e: Elem, e': Elem) {
    e'.content == e.content && e'.downloadEnd == e.downloadEnd && e'.serverConnected == e.serverConnected
  }

  /** An element keeps its identity, only gains bytes, and gains none once its origin has left. */
  ghost predicate Grows(e: Elem, e': Elem) {
    && e'.heading == e.heading && e'.hash == e.hash && e'.reserved == e.reserved
    && e.content <= e'.content
    && (!e.serverConnected ==> SameResponse(e, e'))
  }

  /** An element in use is not evicted, and an evicted one never comes back. */
  ghost predicate Spared(e: Elem, e': Elem) { e.users > 0 || e.refund.Some? ==> e'.refund == e.refund }

  ghost predicate WritesTo(k: Conn, id: nat) { k.b.isAddDataToCash && k.b.cashElement == Some(id) }

  /** An action of connection `k` changes the response only in the element `k` writes, changes the
      user count only where `k` starts or stops reading, and adds at most one element, its own. */
  ghost predicate Effect(k: Conn, store: seq<Elem>, k': Conn, store': seq<Elem>) {
    && |store| <= |store'| <= |store| + 1
    && (forall id | 0 <= id < |store| ::
          && Grows(store[id], store'[id])
          && Spared(store[id], store'[id])
          && (WritesTo(k, id) || SameResponse(store[id], store'[id]))
          && store'[id].users == store[id].users - Reads(k, id) + Reads(k', id))
    && (if |store'| > |store| then
          !k.b.isAddDataToCash && WritesTo(k', |store|) && store'[|store|].users == 0
          && Reads(k', |store|) == 0
        else
          k'.b.isAddDataToCash == k.b.isAddDataToCash
          && (k.b.isAddDataToCash ==> k'.b.cashElement == k.b.cashElement))
  }

  ghost predicate IsReaderOf(k: Conn, id: nat) {
    k.user && k.b.isDataGetCash && k.b.cashElement == Some(id)
  }

  ghost function Reads(k: Conn, id: nat): int { if IsReaderOf(k, id) then 1 else 0 }

  // ----- The whole system -----

  ghost function Readers(conns: seq<Conn>, id: nat): set<nat> {
    set i: nat | i < |conns| && IsReaderOf(conns[i], id)
  }

  ghost predicate HashesAgree(hash: string -> int, store: seq<Elem>) {
    forall id | 0 <= id < |store| :: store[id].hash == hash(store[id].heading)
  }

  ghost predicate CountsAgree(s: Sys) {
    forall id | 0 <= id < |s.cache.store| :: s.cache.store[id].users == |Readers(s.conns, id)|
  }

  /** Every element has exactly one writer. */
  ghost predicate WritersAgree(s: Sys) {
    && |s.writers| == |s.cache.store|
    && (forall id | 0 <= id < |s.writers| ::
          && s.writers[id] < |s.conns|
          && s.conns[s.writers[id]].b.isAddDataToCash
          && s.conns[s.writers[id]].b.cashElement == Some(id))
    && (forall i | 0 <= i < |s.conns| && s.conns[i].b.isAddDataToCash && s.conns[i].b.cashElement.Some?
          && s.conns[i].b.cashElement.value < |s.writers| ::
          s.writers[s.conns[i].b.cashElement.value] == i)
  }

  /** What holds of a connection in every history, whatever its peers send and when: its pointers are
      good, it never reads the cache and writes to it at once, and it appends only while its element
      is marked connected. */
  ghost predicate Role(k: Conn, store: seq<Elem>) {
    && !k.b.isReadyConnectHttpServer
    && (k.b.isAddDataToCash || k.b.isDataGetCash ==> k.b.cashElement.Some? && k.b.cashElement.value < |store|)
    && !(k.b.isAddDataToCash && k.b.isDataGetCash)
    && (k.b.statusClient.WriteRequestHeading? ==> k.user && !k.b.isDataGetCash && !k.b.isAddDataToCash)
    && (k.b.statusHttpServer.WriteResponseHeading? ==>
          !k.b.isDataGetCash && !k.b.statusClient.WriteRequestHeading? && k.b.parseResult.Some?)
    && (k.b.statusHttpServer.WriteResponseHeading? || k.b.isAddDataToCash ==> !k.b.statusClient.WriteRequestBody?)
    && (k.b.isAddDataToCash ==>
          || k.b.statusHttpServer.EndWork?
          || (k.b.statusHttpServer.WriteResponseBody? && store[k.b.cashElement.value].serverConnected))
    && (k.b.statusClient.WriteRequestBody? || k.b.isDataGetCash || k.server ==> k.b.parseResult.Some?)
    && (k.b.isEndSend && k.b.statusHttpServer.ReadRequest? && k.user ==>
          k.b.parseResult.Some? || (k.b.error && k.b.statusClient.ReadResponse?))
    && (!k.reader.NoReader? ==> k.b.isDataGetCash)
  }

  ghost predicate RolesInv(s: Sys) {
    forall i | 0 <= i < |s.conns| :: Role(s.conns[i], s.cache.store)
  }

  /** What holds of the system in every history. */
  ghost predicate BaseInv(hash: string -> int, s: Sys) {
    && CacheInv(s.cache)
    && HashesAgree(hash, s.cache.store)
    && CountsAgree(s)
    && WritersAgree(s)
    && RolesInv(s)
  }

  ghost predicate ConnsInv(hash: string -> int, s: Sys) {
    forall i | 0 <= i < |s.conns| :: ConnInv(hash, s.conns[i], s.cache.store)
  }

  /** What holds of it as long as every chunk comes in its sender's turn. */
  ghost predicate SysInv(hash: string -> int, s: Sys) { BaseInv(hash, s) && ConnsInv(hash, s) }
}
