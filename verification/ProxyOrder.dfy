/** What a chunk out of its sender's turn does to its connection. The handler has no guard against one
    (lab32v2/server/HandlerOneClientImpl.cpp:67-117), and each of them breaks the connection's
    invariant. */
module ProxyOrder {
  import opened Wrappers
  import opened Parser
  import opened CacheSpec
  import opened BufferSpec
  import opened ProxySystem
  import opened ProxyInvariant
  import opened ProxySteps

  // ----- An origin that speaks too early -----

  lemma EarlyBodyRead(hash: string -> int, k: Conn, c: Cache, chunk: string, connected: bool)
    requires Wf(k.b, c) && InRequest(k) && Owned(k) && k.server && k.b.statusClient.WriteRequestBody?
    ensures var b' := OnRequestBody(Receive(k.b, chunk), chunk);
      && ServerRead(hash, k, c, chunk, connected) == (k.(b := b', respIn := k.respIn + chunk), c)
      && b' == k.b.(buf := k.b.buf + chunk, isReadyToSend := true, lengthBody := k.b.lengthBody - |chunk|,
                    isEndSend := b'.isEndSend)
  {
    hide Cache.Wf, Parsed, RequestFramed, HasHeading, ReadyMeansData;
  }

  /** Its bytes join the request: of a body, they are counted against the announced length and are
      sent back to the origin with the next drain. */
  lemma EarlyAnswerGoesBack(hash: string -> int, k: Conn, c: Cache, chunk: string, connected: bool, taken: nat)
    requires Wf(k.b, c) && InRequest(k) && Owned(k) && k.server && chunk != ""
    requires k.b.statusClient.WriteRequestBody?
    ensures var (k', c') := ServerRead(hash, k, c, chunk, connected);
      && c' == c && Wf(k'.b, c)
      && k'.b.lengthBody == k.b.lengthBody - |chunk|
      && k'.reqIn == k.reqIn && k'.reqOut + k'.b.buf == k.reqIn + chunk
      && PossibleAt(k', c, DrainServer(0, taken))
      && var chunk' := k'.b.buf[..Min(|k'.b.buf|, BUF_SIZE - 1)];
      && DrainToServer(k', c, taken).reqOut == k.reqOut + chunk'
      && DrainToServer(k', c, taken).reqWire == Written(k.reqWire, chunk', taken)
  {
    EarlyBodyRead(hash, k, c, chunk, connected);
    Extend(k.reqOut, k.b.buf, k.reqIn, chunk);
    hide Cache.Wf, Parsed, RequestFramed, HasHeading, ServerRead, OnRequestBody, ProofSend, AfterDrain;
  }

  /** So if everything fits one write that the socket takes whole, the origin gets its own bytes back. */
  lemma EarlyAnswerIsTaken(hash: string -> int, k: Conn, c: Cache, chunk: string, connected: bool, taken: nat)
    requires Wf(k.b, c) && InRequest(k) && Owned(k) && k.server && k.b.statusClient.WriteRequestBody?
    requires k.reqOut == "" && 0 < |chunk| && |k.reqIn| + |chunk| < BUF_SIZE && taken >= BUF_SIZE
    ensures var k' := ServerRead(hash, k, c, chunk, connected).0;
      && Wf(k'.b, c) && PossibleAt(k', c, DrainServer(0, taken))
      && DrainToServer(k', c, taken).reqIn == k.reqIn
      && DrainToServer(k', c, taken).reqWire == Wire(k.reqWire.sent + (k.reqIn + chunk), k.reqWire.cuts)
  {
    EarlyAnswerGoesBack(hash, k, c, chunk, connected, taken);
    hide Cache.Wf, InRequest, Owned, ServerRead, PossibleAt, ProofSend, SendBuf, RefreshReady;
    var k' := ServerRead(hash, k, c, chunk, connected).0;
    assert "" + k'.b.buf == k'.b.buf;
    assert k'.b.buf[..|k'.b.buf|] == k'.b.buf;
  }

  /** Of a GET that has not been sent on yet, the heading is parsed again. Unless the response has come
      into the cache meanwhile, a second origin is attached to the buffer. When the first of them goes, the
      one the client knows, the buffer is marked as having none, so the client's going frees it under the
      other. (What the teardown of the second one does to the pointers between the three is not modelled.) */
  lemma EarlyAnswerConnectsTwice(hash: string -> int, k: Conn, c: Cache, chunk: string)
    requires Wf(k.b, c) && InRequest(k) && Owned(k) && k.server && chunk != ""
    requires k.b.statusClient.WriteRequestHeading? && k.reqOut == ""
    requires !Contains(c, hash(k.b.requestHeading))
    ensures var (k1, c1) := ServerRead(hash, k, c, chunk, true);
      && c1 == c && Wf(k1.b, c)
      && k1.origins == 2 && k1.server && k1.reqOut + k1.b.buf == k.reqIn + chunk
      && var (k2, c2) := DeleteServer(k1, c);
      && c2 == c && Wf(k2.b, c) && k2.user && k2.reader == k.reader && k2.frees == 0
      && DeleteUser(k2, c).0.frees == 1 && DeleteUser(k2, c).0.origins == 1
  {
    assert k.b.buf == k.reqIn;
    FramingIsStable(k.reqIn, chunk);
    ServerReadAgain(hash, k, c, chunk, true);
    var k1 := ServerRead(hash, k, c, chunk, true).0;
    hide Cache.Wf, HasHeading, FindEndHeading, ParsingHeading, ServerRead, Contains, Find;
  }

  /** If the response has come into the cache meanwhile, the client is turned into a reader of the cache
      while its origin is still attached, and by a pass that does not start the reader's loop. */
  lemma EarlyAnswerMeetsCache(hash: string -> int, k: Conn, c: Cache, chunk: string, connected: bool)
    requires Wf(k.b, c) && InRequest(k) && Owned(k) && k.server && chunk != ""
    requires k.b.statusClient.WriteRequestHeading? && k.reqOut == ""
    requires Contains(c, hash(k.b.requestHeading))
    ensures var k' := ServerRead(hash, k, c, chunk, connected).0;
      && k'.server && k'.b.isDataGetCash && k'.reader.NoReader?
      && k'.b.statusClient.ReadResponse? && k'.b.statusHttpServer.ReadRequest?
      && k'.reqOut + k'.b.buf == ""
  {
    assert k.b.buf == k.reqIn;
    FramingIsStable(k.reqIn, chunk);
    ServerReadAgain(hash, k, c, chunk, connected);
    hide Cache.Wf, HasHeading, FindEndHeading, ParsingHeading, ServerRead;
  }

  /** What becomes of a request heading that the origin's bytes make the buffer parse again. */
  lemma ServerReadAgain(hash: string -> int, k: Conn, c: Cache, chunk: string, connected: bool)
    requires Wf(k.b, c) && InRequest(k) && Owned(k) && k.server && k.b.statusClient.WriteRequestHeading?
    requires FindEndHeading(k.b.buf + chunk).Some?
    ensures var b1 := Receive(k.b, chunk);
      var heading := b1.buf[..FindEndHeading(b1.buf).value];
      var k1 := k.(b := b1, respIn := k.respIn + chunk);
      && b1.buf == k.b.buf + chunk
      && Wf(b1, c)
      && ServerRead(hash, k, c, chunk, connected) ==
          if ParsingHeading(heading).None? then (k1.(b := Reject(b1, heading)), c)
          else
            var parsed := ParsingHeading(heading).value;
            var (c1, hit) := Find(c, hash(heading));
            if hit.Some? then
              (k1.(b := StartReading(b1, heading, parsed, hit.value)), AddUsers(c1, hit.value, 1))
            else
              var b2 := StartRelay(b1, heading, parsed).(isReadyConnectHttpServer := false);
              if connected then (k1.(b := b2.(isServerConnect := true), origins := k.origins + 1), c)
              else DeleteServer(k1.(b := b2), c)
  {
    hide Cache.Wf, Find, AddUsers, ParsingHeading, FindEndHeading, DeleteServer;
    var b1 := Receive(k.b, chunk);
    var heading := b1.buf[..FindEndHeading(b1.buf).value];
    assert ReadFromSocket(hash, k.b, c, chunk) == OnRequestHeading(hash, b1, c);
    if ParsingHeading(heading).Some? {
      assert OnRequestHeading(hash, b1, c) == OnParsedRequest(hash, b1, c, heading, ParsingHeading(heading).value);
    }
  }

  /** In every case the invariant is lost. */
  lemma EarlyAnswerBreaks(hash: string -> int, k: Conn, c: Cache, chunk: string, connected: bool)
    requires Wf(k.b, c) && ConnInv(hash, k, c.store) && k.server && chunk != "" && k.b.statusHttpServer.ReadRequest?
    ensures var (k', c') := ServerRead(hash, k, c, chunk, connected); !ConnInv(hash, k', c'.store)
  {
    hide Cache.Wf, ParsingHeading, Heading, HasHeading, Response, FindEndHeading, ReaderData, Writes, Find, AddUsers,
      RequestFramed, ResponseFramed;
    assert InRequest(k) && Owned(k);
    var (k', c') := ServerRead(hash, k, c, chunk, connected);
    assert k.respIn == "" && k.respIn + chunk != "";
    if k.b.statusClient.WriteRequestHeading? && FindEndHeading(k.b.buf + chunk).Some? {
      ServerReadAgain(hash, k, c, chunk, connected);
    }
    hide ServerRead, ReadFromSocket;
  }

  // ----- A client that speaks out of turn -----

  /** A chunk that arrives once the request has been relayed is taken for the origin's. */
  lemma LateChunkFrame(hash: string -> int, b: Buf, c: Cache, chunk: string)
    requires Wf(b, c) && (b.statusClient.ReadResponse? || b.statusClient.EndWork?)
    ensures var r := ReadFromSocket(hash, b, c, chunk).b;
      && r.statusClient == b.statusClient && r.error == b.error && r.isDataGetCash == b.isDataGetCash
      && r.isReadyConnectHttpServer == b.isReadyConnectHttpServer
      && (b.statusHttpServer.ReadRequest? ==> r == b.(buf := b.buf + chunk))
  {
    hide Cache.Wf, OnResponseHeading, OnResponseBody;
    var b1 := Receive(b, chunk);
    if b.statusHttpServer.WriteResponseHeading? {
      LateHeadingFrame(hash, b1, c);
    } else if b.statusHttpServer.WriteResponseBody? {
      LateBodyFrame(b1, c, chunk);
    }
  }

  lemma LateHeadingFrame(hash: string -> int, b: Buf, c: Cache)
    requires Wf(b, c) && !b.isDataGetCash
    ensures var r := OnResponseHeading(hash, b, c).b;
      && r.statusClient == b.statusClient && r.error == b.error && r.isDataGetCash == b.isDataGetCash
      && r.isReadyConnectHttpServer == b.isReadyConnectHttpServer
  {
    hide Cache.Wf, FindEndHeading, ParsingResponseHeading, OpenElement, MarkEnd;
  }

  lemma LateBodyFrame(b: Buf, c: Cache, chunk: string)
    requires Wf(b, c)
    ensures var r := OnResponseBody(b, c, chunk).b;
      && r.statusClient == b.statusClient && r.error == b.error && r.isDataGetCash == b.isDataGetCash
      && r.isReadyConnectHttpServer == b.isReadyConnectHttpServer
  {
    hide Cache.Wf, MarkEnd, Append, FindEndBody;
  }

  /** Where a connection stands that still has a client and has relayed or refused its request. */
  lemma LatePhases(hash: string -> int, k: Conn, store: seq<Elem>)
    requires ConnInv(hash, k, store) && k.user && k.reader.NoReader?
    requires k.b.statusClient.ReadResponse? || k.b.statusClient.EndWork?
    ensures !k.b.isDataGetCash
    ensures if k.b.error then Rejected(k) else k.reqOut == k.reqIn
  {
    hide ParsingHeading, Heading, HasHeading, Response, ReaderData, Writes, ResponseFramed;
  }

  lemma LateRequestBreaks(hash: string -> int, k: Conn, c: Cache, chunk: string, connected: bool)
    requires Wf(k.b, c) && ConnInv(hash, k, c.store) && k.user && k.reader.NoReader? && chunk != ""
    requires k.b.statusClient.ReadResponse? || k.b.statusClient.EndWork?
    ensures var (k', c') := UserRead(hash, k, c, chunk, connected); !ConnInv(hash, k', c'.store)
  {
    LatePhases(hash, k, c.store);
    LateChunkFrame(hash, k.b, c, chunk);
    hide Cache.Wf, ParsingHeading, Heading, HasHeading, Response, ReaderData, Writes, ReadFromSocket,
      RequestFramed, ResponseFramed, WriterOf;
    var (k', c') := UserRead(hash, k, c, chunk, connected);
    assert k'.reqIn == k.reqIn + chunk && |k'.reqIn| > |k.reqIn|;
    assert k.b.error ==> k'.respOut + k'.b.buf == INCORRECT_HEADING + chunk by {
      assert k.b.error ==> k.respOut + (k.b.buf + chunk) == k.respOut + k.b.buf + chunk;
    }
  }

  /** Bytes that make the heading of a GET be parsed again attach a second origin, or put the client
      into the cache with an origin attached, or refuse a request that is already being relayed. */
  lemma SecondRequestBreaks(hash: string -> int, k: Conn, c: Cache, chunk: string, connected: bool)
    requires Wf(k.b, c) && ConnInv(hash, k, c.store) && k.user && k.b.statusClient.WriteRequestHeading? && k.b.isEndSend
    requires !ParsesInVain(hash, k.b, c, chunk, connected)
    ensures var (k', c') := UserRead(hash, k, c, chunk, connected); !ConnInv(hash, k', c'.store)
  {
    hide Cache.Wf, ParsingHeading, Heading, HasHeading, Response, FindEndHeading, ReaderData, Writes, Find, AddUsers,
      RequestFramed, ResponseFramed;
    assert InRequest(k) && Owned(k);
    UserReadAgain(hash, k, c, chunk, connected);
    hide UserRead;
  }

  /** If the origin of a GET has left before the request was sent on, such bytes attach another one in its
      place. The buffer is owned as before, but the new origin is never sent the request: the buffer still
      says that the origin's side is over, so the handler closes it again. */
  lemma LateByteReplacesOrigin(hash: string -> int, k: Conn, c: Cache, chunk: string)
    requires Wf(k.b, c) && InRequest(k) && Owned(k) && !k.server && chunk != ""
    requires k.b.statusClient.WriteRequestHeading? && k.reqOut == "" && !Contains(c, hash(k.b.requestHeading))
    ensures var (k', c') := UserRead(hash, k, c, chunk, true);
      && c' == c && Wf(k'.b, c) && Owned(k') && k'.server && k'.origins == 1
      && ServerMustClose(k'.b) && !ServerMayDrain(k', c)
  {
    hide Cache.Wf, HasHeading, FindEndHeading, ParsingHeading, UserRead, Contains, Find;
    assert k.b.buf == k.reqIn;
    FramingIsStable(k.reqIn, chunk);
    UserReadAgain(hash, k, c, chunk, true);
  }

  // ----- In turn or out of it -----

  /** One chunk keeps the invariant of its connection exactly if it comes in its sender's turn. */
  lemma InTurnIffKept(hash: string -> int, k: Conn, c: Cache, a: Action)
    requires Wf(k.b, c) && ConnInv(hash, k, c.store) && CacheInv(c) && HashesAgree(hash, c.store)
    requires !a.Accept? && PossibleAt(k, c, a)
    ensures var (k', c') := ApplyAt(hash, k, c, a);
      ConnInv(hash, k', c'.store) <==> InTurn(hash, k, c, a)
  {
    hide Cache.Wf, ConnInv, CacheInv, HashesAgree, UserRead, ServerRead, ParsesInVain;
    if InTurn(hash, k, c, a) {
      ActionKeeps(hash, k, c, a);
    } else if a.ServerChunk? {
      EarlyAnswerBreaks(hash, k, c, a.chunk, a.connected);
    } else if k.b.statusClient.WriteRequestHeading? {
      SecondRequestBreaks(hash, k, c, a.chunk, a.connected);
    } else {
      UserStatuses(hash, k, c.store);
      LateRequestBreaks(hash, k, c, a.chunk, a.connected);
    }
  }

  lemma UserStatuses(hash: string -> int, k: Conn, store: seq<Elem>)
    requires ConnInv(hash, k, store) && k.user
    ensures !k.b.statusClient.ReadRequest? && !k.b.statusClient.WriteResponseHeading?
      && !k.b.statusClient.WriteResponseBody?
  {
    hide ParsingHeading, Heading, HasHeading, Response, ReaderData, Writes, Owned, ResponseFramed;
  }
}
