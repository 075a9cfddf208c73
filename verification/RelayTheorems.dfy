/** What the two sockets that share a buffer can rely on, as long as their own chunks come in turn and
    whatever happens on other connections: framing, lossless relay, direction, and caching that
    outlives the client. */
module RelayTheorems {
  import opened Wrappers
  import opened Parser
  import opened CacheSpec
  import opened BufferSpec
  import opened ProxySystem
  import opened ProxyInvariant
  import opened ProxySteps
  import opened ProxyRoles
  import opened ProxyOrder
  import opened ProxyHistories
  import opened Deliveries
  import opened ProxyTheorems

  // ----- Framing -----

  /** However a response was cut into chunks and drained, the relay leaves the heading phase with
      the byte that completes the heading, the counter of missing bytes is a function of the bytes
      received, and the end is noticed exactly when heading and announced body have arrived. */
  lemma FramingFollowsTheBytes(hash: string -> int, run: seq<Sys>, actions: seq<Action>, n: nat, i: nat)
    requires IsHistory(hash, run, actions) && n < |run| && i < |run[n].conns|
    requires OwnInTurn(hash, run, actions, n, i)
    requires run[n].conns[i].server
    ensures var k := run[n].conns[i];
      && (k.b.statusHttpServer.WriteResponseHeading? ==> !HasHeading(k.respIn) && !k.b.isEndSend)
      && (k.b.statusHttpServer.WriteResponseBody? ==>
            && HasHeading(k.respIn)
            && (k.b.isHaveContentLengthResponse <==> Announced(k.respIn))
            && (Announced(k.respIn) ==>
                  && k.b.lengthBody == Due(k.respIn) - |k.respIn|
                  && (k.b.isEndSend <==> Complete(k.respIn)))
            && ResponseFramedAsAnnounced(k))
  {
    ConnKept(hash, run, actions, n, i);
    var k := run[n].conns[i];
    ServerPhases(hash, k, run[n].cache.store);
    hide ConnInv, IsHistory, OwnInTurn, HasHeading, Heading, Response, ParsingHeading, ResponseFramedAsAnnounced;
    if k.b.statusHttpServer.WriteResponseBody? { ResponseIsFramed(k); }
  }

  /** The same, as the text of the heading says. */
  ghost predicate ResponseFramedAsAnnounced(k: Conn)
    requires HasHeading(k.respIn)
  {
    var heading := Heading(k.respIn);
    && (k.b.isHaveContentLengthResponse <==> !AnnouncesNothing(heading))
    && (forall length: nat :: Announces(heading, length) ==>
          && k.b.lengthBody == |heading| + length - |k.respIn|
          && (k.b.isEndSend <==> |k.respIn| >= |heading| + length))
  }

  lemma ResponseIsFramed(k: Conn)
    requires InResponseBody(k)
    ensures ResponseFramedAsAnnounced(k)
  {
    hide Announces, AnnouncesNothing, FindEndHeading, ParsingResponseHeading, ParsingHeading;
    ResponseLength(Heading(k.respIn));
  }

  lemma ServerPhases(hash: string -> int, k: Conn, store: seq<Elem>)
    requires ConnInv(hash, k, store) && k.server
    ensures InRequest(k) || InResponseHeading(k) || InResponseBody(k) || Finished(k)
    ensures Writes(k, store) && Owned(k)
  {
    hide HasHeading, Heading, ParsingHeading, Response, ReaderData, WriterOf;
  }

  /** Two relays that have received the same bytes, in whatever chunks and in whatever histories, agree
      on how many are missing and on whether the response is over. */
  lemma SameBytesSameFraming(hash: string -> int, run1: seq<Sys>, actions1: seq<Action>, n1: nat, i1: nat,
                             run2: seq<Sys>, actions2: seq<Action>, n2: nat, i2: nat)
    requires IsHistory(hash, run1, actions1) && n1 < |run1| && i1 < |run1[n1].conns|
    requires IsHistory(hash, run2, actions2) && n2 < |run2| && i2 < |run2[n2].conns|
    requires OwnInTurn(hash, run1, actions1, n1, i1) && OwnInTurn(hash, run2, actions2, n2, i2)
    requires run1[n1].conns[i1].server && run1[n1].conns[i1].b.statusHttpServer.WriteResponseBody?
    requires run2[n2].conns[i2].server && run2[n2].conns[i2].b.statusHttpServer.WriteResponseBody?
    requires run1[n1].conns[i1].respIn == run2[n2].conns[i2].respIn
    ensures var b1, b2 := run1[n1].conns[i1].b, run2[n2].conns[i2].b;
      && b1.isHaveContentLengthResponse == b2.isHaveContentLengthResponse
      && (b1.isHaveContentLengthResponse ==> b1.lengthBody == b2.lengthBody && b1.isEndSend == b2.isEndSend)
  {
    FramingFollowsTheBytes(hash, run1, actions1, n1, i1);
    FramingFollowsTheBytes(hash, run2, actions2, n2, i2);
    hide IsHistory, OwnInTurn, HasHeading, Announced, Complete, Due;
  }

  /** The request side is framed the same way: the origin's turn comes once heading and announced
      body have been received and sent. What is announced is read off the text of the heading. */
  lemma RequestIsWholeBeforeTheAnswer(hash: string -> int, run: seq<Sys>, actions: seq<Action>, n: nat, i: nat)
    requires IsHistory(hash, run, actions) && n < |run| && i < |run[n].conns|
    requires OwnInTurn(hash, run, actions, n, i)
    requires run[n].conns[i].server && run[n].conns[i].user
    ensures var k := run[n].conns[i];
      if k.b.statusHttpServer.ReadRequest? then
        && Parsed(k)
        && (k.b.isEndSend <==>
              || k.b.parseResult.value.kind.GetRequest?
              || |k.reqIn| >= |k.b.requestHeading| + k.b.parseResult.value.contentLength)
        && RequestEndsAsAnnounced(k)
      else k.reqOut == k.reqIn
  {
    ConnKept(hash, run, actions, n, i);
    var k := run[n].conns[i];
    UserPhases(hash, k, run[n].cache.store);
    hide ConnInv, IsHistory, OwnInTurn, HasHeading, Heading, Response, ParsingHeading, ReaderData,
      RequestEndsAsAnnounced;
    if k.b.statusHttpServer.ReadRequest? { RequestEnds(k); }
  }

  /** The request is noticed to be over as its heading says: a GET with its heading, any other with the last
      byte of the length it announces, or with its heading if it announces none. */
  ghost predicate RequestEndsAsAnnounced(k: Conn) {
    HasHeading(k.reqIn) &&
    var heading := Heading(k.reqIn);
    if "GET" <= heading || AnnouncesNothing(heading) then k.b.isEndSend
    else
      exists length: nat :: Announces(heading, length) && (k.b.isEndSend <==> |k.reqIn| >= |heading| + length)
  }

  lemma RequestEnds(k: Conn)
    requires InRequest(k)
    ensures RequestEndsAsAnnounced(k)
  {
    hide Announces, AnnouncesNothing, FindEndHeading, ParsingHeading;
    var heading := Heading(k.reqIn);
    RequestLength(heading);
    var p := ParsingHeading(heading).value;
    assert !AnnouncesNothing(heading) ==> Announces(heading, p.contentLength);
  }

  lemma UserPhases(hash: string -> int, k: Conn, store: seq<Elem>)
    requires ConnInv(hash, k, store) && k.user
    ensures InRequestHeading(k) || InRequest(k) || InResponseHeading(k) || InResponseBody(k)
      || OriginGone(k) || Finished(k) || Rejected(k) || InCache(hash, k, store)
  {
    hide HasHeading, Heading, ParsingHeading, Response, ReaderData, WriterOf, RequestFramed, ResponseFramed, Relayed;
  }

  // ----- Lossless relay -----

  /** While its client is connected, a relayed connection counts every byte once and in order: what
      has been counted as sent, followed by the buffer, is what was read from the other socket. Only
      bytes that arrive after the exchange is over (`late`) are never sent on. */
  lemma CountedBytesAreInOrder(hash: string -> int, k: Conn, store: seq<Elem>)
    requires ConnInv(hash, k, store) && k.user && !k.b.isDataGetCash && !k.b.error
    ensures
      if k.b.statusClient.WriteRequestHeading? || k.b.statusClient.WriteRequestBody? then
        k.reqOut + k.b.buf == k.reqIn && k.respIn == "" && k.respOut == ""
      else
        && k.reqOut == k.reqIn
        && k.respOut + k.b.buf == k.respIn + k.late
        && (k.late != "" ==> k.b.statusClient.EndWork? && k.respOut == k.respIn)
  {
    UserPhases(hash, k, store);
    hide ConnInv, HasHeading, Heading, Response, ParsingHeading, ResponseFramed, RequestFramed;
  }

  /** As long as its own chunks come in turn, a relay is lossless exactly if no drain has failed: what
      the origin's socket took, followed by the buffer, is the request as far as it was read, iff no
      write to the origin was cut short; and the same holds of the client and the response. */
  lemma RelayIsLosslessIff(hash: string -> int, run: seq<Sys>, actions: seq<Action>, n: nat, i: nat)
    requires IsHistory(hash, run, actions) && n < |run| && i < |run[n].conns|
    requires OwnInTurn(hash, run, actions, n, i)
    requires var k := run[n].conns[i]; k.user && !k.b.isDataGetCash && !k.b.error
    ensures var k := run[n].conns[i];
      var toOrigin, toUser := CutDrains(run, actions, n, i, false), CutDrains(run, actions, n, i, true);
      if k.b.statusClient.WriteRequestHeading? || k.b.statusClient.WriteRequestBody? then
        k.reqWire.sent + k.b.buf == k.reqIn <==> toOrigin == 0
      else
        && (k.reqWire.sent == k.reqIn <==> toOrigin == 0)
        && (k.respWire.sent + k.b.buf == k.respIn + k.late <==> toUser == 0)
  {
    ConnKept(hash, run, actions, n, i);
    HistoryWires(hash, run, actions, n, i);
    CutsAreFailedDrains(hash, run, actions, n, i, true);
    CutsAreFailedDrains(hash, run, actions, n, i, false);
    hide IsHistory, OwnInTurn, ConnInv, CutDrains, Delivered;
    var k := run[n].conns[i];
    CountedBytesAreInOrder(hash, k, run[n].cache.store);
    WholeIffUncut(k.reqOut, k.reqWire, k.b.buf);
    WholeIffUncut(k.respOut, k.respWire, k.b.buf);
  }

  /** In particular, one failed drain loses its chunk for good, although the relay goes on. */
  lemma FailedDrainLoses(k: Conn, c: Cache)
    requires Wf(k.b, c) && !k.b.isDataGetCash && UserMayDrain(k, c) && k.b.buf != ""
    requires k.respWire.sent + k.b.buf == k.respIn + k.late
    ensures var k' := DrainToUser(k, c, 0);
      && |k'.b.buf| < |k.b.buf| && k'.respWire.sent == k.respWire.sent
      && k'.respWire.sent + k'.b.buf != k'.respIn + k'.late
  {
    hide Cache.Wf;
    var k' := DrainToUser(k, c, 0);
    var chunk := SendBuf(k.b, c, "");
    assert chunk[..0] == "" && k.respWire.sent + "" == k.respWire.sent;
    assert |k'.respWire.sent + k'.b.buf| < |k.respIn + k.late|;
  }

  /** Failed writes or not, the origin is sent nothing but bytes of the request, in order, and the
      client nothing but bytes of the response, of the cached response, or of the fixed error text. */
  lemma EachSideGetsItsOwnBytes(hash: string -> int, run: seq<Sys>, actions: seq<Action>, n: nat, i: nat)
    requires IsHistory(hash, run, actions) && n < |run| && i < |run[n].conns| && run[n].conns[i].user
    requires OwnInTurn(hash, run, actions, n, i)
    ensures var k := run[n].conns[i];
      && Subsequence(k.reqWire.sent, k.reqIn)
      && (Subsequence(k.respWire.sent, k.respIn) || Subsequence(k.respWire.sent, INCORRECT_HEADING))
      && (k.b.isDataGetCash ==> k.reqWire.sent == "" && k.respWire.sent == "" && k.respIn == "")
  {
    ConnKept(hash, run, actions, n, i);
    HistoryWires(hash, run, actions, n, i);
    hide IsHistory, OwnInTurn, ConnInv;
    WiresArePieces(hash, run[n].conns[i], run[n].cache.store);
  }

  lemma WiresArePieces(hash: string -> int, k: Conn, store: seq<Elem>)
    requires ConnInv(hash, k, store) && k.user && Wires(k)
    ensures Subsequence(k.reqWire.sent, k.reqIn)
    ensures Subsequence(k.respWire.sent, k.respIn) || Subsequence(k.respWire.sent, INCORRECT_HEADING)
    ensures k.b.isDataGetCash ==> k.reqWire.sent == "" && k.respWire.sent == "" && k.respIn == ""
  {
    hide ConnInv, Subsequence;
    CountedArePrefixes(hash, k, store);
    SubsequenceOfPrefix(k.reqWire.sent, k.reqOut, k.reqIn);
    SubsequenceOfPrefix(k.respWire.sent, k.respOut, if k.respOut <= k.respIn then k.respIn else INCORRECT_HEADING);
  }

  lemma CountedArePrefixes(hash: string -> int, k: Conn, store: seq<Elem>)
    requires ConnInv(hash, k, store) && k.user
    ensures k.reqOut <= k.reqIn
    ensures k.respOut <= k.respIn || k.respOut <= INCORRECT_HEADING
    ensures k.b.isDataGetCash ==> k.reqOut == "" && k.respOut == "" && k.respIn == ""
  {
    UserPhases(hash, k, store);
    assert k.respIn + "" == k.respIn;
    hide ConnInv, HasHeading, Heading, Response, ParsingHeading, ResponseFramed, RequestFramed;
  }

  // ----- Direction -----

  /** At most one endpoint may drain the buffer. The client reads while the origin still waits for
      the request only after a cache hit or a rejected heading, and then there is no origin. */
  lemma OneDirectionAtATime(hash: string -> int, run: seq<Sys>, actions: seq<Action>, n: nat, i: nat)
    requires IsHistory(hash, run, actions) && n < |run| && i < |run[n].conns|
    requires OwnInTurn(hash, run, actions, n, i)
    requires run[n].conns[i].user || run[n].conns[i].server
    ensures var k, c := run[n].conns[i], run[n].cache;
      && Wf(k.b, c)
      && !(ServerMayDrain(k, c) && UserMayDrain(k, c))
      && (k.user && k.b.statusClient.ReadResponse? && k.b.statusHttpServer.ReadRequest? ==>
            !k.server && (k.b.isDataGetCash || k.b.error))
  {
    ConnKept(hash, run, actions, n, i);
    HistoryBase(hash, run, actions, n);
    var k, c := run[n].conns[i], run[n].cache;
    PointersAreGood(hash, run[n], i);
    if k.user { UserPhases(hash, k, c.store); }
    hide ConnInv, IsHistory, OwnInTurn, BaseInv, Cache.Wf, HasHeading, Heading, Response, ParsingHeading, ReaderData,
      RequestFramed, ResponseFramed, Relayed;
  }

  /** A drain always has something to send, at most one read's worth. */
  lemma DrainsSendSomething(hash: string -> int, k: Conn, c: Cache)
    requires Wf(k.b, c) && ConnInv(hash, k, c.store)
    requires ServerMayDrain(k, c) || UserMayDrain(k, c)
    ensures 0 < |SendBuf(k.b, c, "")| < BUF_SIZE
  {
    hide HasHeading, Heading, Response, ParsingHeading, ReaderData, RequestFramed, ResponseFramed, Relayed, WriterOf,
      Cache.Wf;
  }

  function ClientRank(s: StatusHttp): nat {
    match s
    case WriteRequestHeading => 0
    case WriteRequestBody => 1
    case ReadResponse => 2
    case _ => 3
  }

  function ServerRank(s: StatusHttp): nat {
    match s
    case ReadRequest => 0
    case WriteResponseHeading => 1
    case WriteResponseBody => 2
    case _ => 3
  }

  ghost predicate Forward(b: Buf, b': Buf) {
    && ClientRank(b.statusClient) <= ClientRank(b'.statusClient)
    && ServerRank(b.statusHttpServer) <= ServerRank(b'.statusHttpServer)
  }

  /** Before its request is relayed, a client's chunk leaves the origin's side where it is. */
  lemma RequestStatuses(hash: string -> int, b: Buf, c: Cache, chunk: string)
    requires Wf(b, c) && (b.statusClient.WriteRequestHeading? || b.statusClient.WriteRequestBody?)
    ensures var r := ReadFromSocket(hash, b, c, chunk).b;
      && r.statusHttpServer == b.statusHttpServer
      && (b.statusClient.WriteRequestBody? ==> r.statusClient == b.statusClient)
  {
    var b1 := Receive(b, chunk);
    if b.statusClient.WriteRequestHeading? { HeadingStatuses(hash, b1, c); }
    hide Cache.Wf, OnRequestHeading;
  }

  lemma HeadingStatuses(hash: string -> int, b: Buf, c: Cache)
    requires Wf(b, c) && b.statusClient.WriteRequestHeading?
    ensures OnRequestHeading(hash, b, c).b.statusHttpServer == b.statusHttpServer
  {
    hide Cache.Wf, FindEndHeading, ParsingHeading, Find, AddUsers, StartReading, StartRelay;
  }

  lemma UserReadForward(hash: string -> int, k: Conn, c: Cache, chunk: string, connected: bool)
    requires Wf(k.b, c) && (k.b.statusClient.WriteRequestHeading? || k.b.statusClient.WriteRequestBody?)
    ensures Forward(k.b, UserRead(hash, k, c, chunk, connected).0.b)
  {
    hide Wf, ReadFromSocket, DeleteUser, UserRead;
    RequestStatuses(hash, k.b, c, chunk);
    var o := ReadFromSocket(hash, k.b, c, chunk);
    RequestForward(k.b, o.b);
    UserReadIs(hash, k, c, chunk, connected);
    if o.b.isReadyConnectHttpServer && !connected {
      var k1 := k.(b := o.b.(isReadyConnectHttpServer := false), reqIn := k.reqIn + chunk);
      Cleared(o.b, o.c);
      DeleteUserForward(k1, o.c);
    }
  }

  /** A user's chunk leaves the statuses as the buffer leaves them, or takes the user away. */
  lemma UserReadIs(hash: string -> int, k: Conn, c: Cache, chunk: string, connected: bool)
    requires Wf(k.b, c)
    ensures var o := ReadFromSocket(hash, k.b, c, chunk);
      var k1 := k.(b := o.b.(isReadyConnectHttpServer := false), reqIn := k.reqIn + chunk);
      var k' := UserRead(hash, k, c, chunk, connected).0;
      || (k'.b.statusClient == o.b.statusClient && k'.b.statusHttpServer == o.b.statusHttpServer)
      || (o.b.isReadyConnectHttpServer && !connected && Wf(k1.b, o.c) && k' == DeleteUser(k1, o.c).0)
  {
    hide Cache.Wf, ReadFromSocket, DeleteUser;
  }

  lemma RequestForward(b: Buf, r: Buf)
    requires b.statusClient.WriteRequestHeading?
      || (b.statusClient.WriteRequestBody? && r.statusClient == b.statusClient)
    requires r.statusHttpServer == b.statusHttpServer
    ensures Forward(b, r)
  {
  }

  lemma DeleteUserForward(k: Conn, c: Cache)
    requires Wf(k.b, c)
    ensures Forward(k.b, DeleteUser(k, c).0.b)
  {
    hide Wf, LeftByOrigin, LeftByReader;
  }

  lemma ServerReadForward(hash: string -> int, k: Conn, c: Cache, chunk: string, connected: bool)
    requires Wf(k.b, c) && ConnInv(hash, k, c.store) && k.server && !k.b.statusHttpServer.ReadRequest?
    ensures Forward(k.b, ServerRead(hash, k, c, chunk, connected).0.b)
  {
    ServerPhases(hash, k, c.store);
    hide ConnInv, Cache.Wf;
    if InResponseHeading(k) {
      HeadingForward(hash, k, c, chunk, connected);
    } else if InResponseBody(k) {
      BodyForward(hash, k, c, chunk, connected);
    } else {
      assert k.b.statusClient.EndWork? && k.b.statusHttpServer.EndWork?;
      hide Finished;
    }
  }

  lemma HeadingForward(hash: string -> int, k: Conn, c: Cache, chunk: string, connected: bool)
    requires Wf(k.b, c) && InResponseHeading(k) && Owned(k)
    ensures Forward(k.b, ServerRead(hash, k, c, chunk, connected).0.b)
  {
    ServerReadHeading(hash, k, c, chunk, connected);
    assert k.b.statusHttpServer.WriteResponseHeading?;
    hide ServerRead, Wf, HasHeading, Heading, OpenElement, Response, AfterHeading, InResponseHeading, Owned;
  }

  lemma BodyForward(hash: string -> int, k: Conn, c: Cache, chunk: string, connected: bool)
    requires Wf(k.b, c) && InResponseBody(k) && Owned(k)
    ensures Forward(k.b, ServerRead(hash, k, c, chunk, connected).0.b)
  {
    ServerReadBody(hash, k, c, chunk, connected);
    hide ServerRead, Wf, InResponseBody, AfterBody, MarkEnd;
  }

  /** Both status fields of a connection only ever move forward in their order, whatever others do and
      as long as its own chunks come in turn. */
  lemma StatusesMoveForward(hash: string -> int, s: Sys, a: Action, i: nat)
    requires BaseInv(hash, s) && Possible(s, a) && i < |s.conns| && ConnInv(hash, s.conns[i], s.cache.store)
    requires a.Accept? || a.i != i || Orderly(hash, s, a)
    ensures i < |Apply(hash, s, a).conns| && Forward(s.conns[i].b, Apply(hash, s, a).conns[i].b)
  {
    hide Forward, ConnInv, Cache.Wf, CacheInv, HashesAgree, CountsAgree, WritersAgree, RolesInv, PossibleAt, ApplyAt,
      Wf;
    SameForward(s.conns[i].b);
    if !a.Accept? && a.i == i {
      ActionForward(hash, s.conns[i], s.cache, a);
    }
  }

  lemma SameForward(b: Buf)
    ensures Forward(b, b)
  {
  }

  lemma ActionForward(hash: string -> int, k: Conn, c: Cache, a: Action)
    requires Wf(k.b, c) && ConnInv(hash, k, c.store) && !a.Accept? && PossibleAt(k, c, a) && InTurn(hash, k, c, a)
    ensures Forward(k.b, ApplyAt(hash, k, c, a).0.b)
  {
    hide Cache.Wf, ConnInv, UserRead, ServerRead;
    match a {
      case UserChunk(_, chunk, connected) => UserReadForward(hash, k, c, chunk, connected);
      case ServerChunk(_, chunk, connected) => ServerReadForward(hash, k, c, chunk, connected);
      case DrainServer(_, taken) => DrainForward(hash, k, c, taken);
      case DrainUser(_, taken) => DrainForward(hash, k, c, taken);
      case CloseServer(_) =>
      case CloseUser(_) =>
      case Look(_) => RefreshForward(k.b, c);
      case ReadCash(_, ok, taken) => ReaderForward(k, c, ok, taken);
      case ReaderExit(_) =>
    }
  }

  lemma DrainForward(hash: string -> int, k: Conn, c: Cache, taken: nat)
    requires Wf(k.b, c) && ConnInv(hash, k, c.store) && (ServerMayDrain(k, c) || UserMayDrain(k, c))
    ensures Forward(k.b, DrainToServer(k, c, taken).b) && Forward(k.b, DrainToUser(k, c, taken).b)
  {
    DrainStatuses(hash, k, c);
    hide Cache.Wf, ConnInv, SendBuf, Min, ServerMayDrain, UserMayDrain, ProofSendFromCache;
  }

  /** Where a relay may stand when its buffer is drained. */
  lemma DrainStatuses(hash: string -> int, k: Conn, c: Cache)
    requires Wf(k.b, c) && ConnInv(hash, k, c.store) && (ServerMayDrain(k, c) || UserMayDrain(k, c))
    ensures !k.b.isDataGetCash
    ensures k.b.statusHttpServer.ReadRequest? ==> !k.b.statusClient.EndWork?
  {
    if k.server { ServerPhases(hash, k, c.store); }
    if k.user { UserPhases(hash, k, c.store); }
    hide Cache.Wf, ConnInv, HasHeading, Heading, Response, ParsingHeading, ReaderData, RequestFramed, ResponseFramed,
      Relayed;
  }

  lemma ReaderForward(k: Conn, c: Cache, ok: bool, taken: nat)
    requires Wf(k.b, c) && k.b.isDataGetCash
    ensures Forward(k.b, ReaderStep(k, c, ok, taken).b)
  {
    hide Cache.Wf, NextPc, SendBuf, ProofSendFromCache, RefreshReady, ClientRank, ServerRank;
    if k.reader.SendProof? {
      ProofForward(k.b, c.store[k.b.cashElement.value], |k.reader.sent|);
    } else {
      RefreshForward(k.b, c);
    }
  }

  lemma ProofForward(b: Buf, e: Elem, sent: nat)
    ensures Forward(b, ProofSendFromCache(b, e, sent))
  {
  }

  lemma RefreshForward(b: Buf, c: Cache)
    requires Wf(b, c)
    ensures Forward(b, RefreshReady(b, c)) && Forward(b, b)
  {
    hide Cache.Wf;
  }

  // ----- Caching outlives the client -----

  /** Only a successful response with an announced length, to a GET, is ever being cached; so the
      two branches that report a possible error are never reached. */
  lemma OnlyAnnouncedGetsAreCached(hash: string -> int, run: seq<Sys>, actions: seq<Action>, n: nat, i: nat)
    requires IsHistory(hash, run, actions) && n < |run| && i < |run[n].conns|
    requires OwnInTurn(hash, run, actions, n, i)
    requires run[n].conns[i].b.isAddDataToCash
    ensures var k := run[n].conns[i];
      && k.b.isHaveContentLengthResponse && Announced(k.respIn) && !Response(k.respIn).responseWithError
      && k.b.parseResult.Some? && k.b.parseResult.value.kind.GetRequest?
  {
    ConnKept(hash, run, actions, n, i);
    hide IsHistory, OwnInTurn, InSomePhase, HasHeading, Heading, ParsingHeading, Response;
  }

  /** What the source's test amounts to: with the chunk that completes a response heading, the response
      begins to be cached exactly if it answers a GET successfully and announces its length, is not too
      large, is not cached already, and the cache accepts it. */
  lemma CachingStartsIff(hash: string -> int, run: seq<Sys>, actions: seq<Action>, n: nat, i: nat,
                         chunk: string, connected: bool)
    requires IsHistory(hash, run, actions) && n < |run| && i < |run[n].conns|
    requires OwnInTurn(hash, run, actions, n, i)
    requires var k := run[n].conns[i];
      k.server && k.b.statusHttpServer.WriteResponseHeading? && HasHeading(k.respIn + chunk)
    ensures var k, c, R := run[n].conns[i], run[n].cache, run[n].conns[i].respIn + chunk;
      && Wf(k.b, c) && k.b.parseResult.Some?
      && (ServerRead(hash, k, c, chunk, connected).0.b.isAddDataToCash <==>
            && k.b.parseResult.value.kind.GetRequest?
            && Announced(R) && !Response(R).responseWithError
            && |R| + Response(R).contentLength < SIZE_EACH_CASH_ELEMENT
            && !Contains(c, hash(k.b.requestHeading))
            && Add(c, k.b.requestHeading, hash(k.b.requestHeading), Due(R)).1.Some?)
  {
    ConnKept(hash, run, actions, n, i);
    HistoryBase(hash, run, actions, n);
    PointersAreGood(hash, run[n], i);
    var k, c := run[n].conns[i], run[n].cache;
    ServerPhases(hash, k, c.store);
    AwaitsHeading(hash, k, c.store);
    hide *;
    CachingStarts(hash, k, c, chunk, connected);
  }

  lemma AwaitsHeading(hash: string -> int, k: Conn, store: seq<Elem>)
    requires ConnInv(hash, k, store) && k.server && k.b.statusHttpServer.WriteResponseHeading?
    ensures InResponseHeading(k) && Owned(k) && k.b.parseResult.Some?
  {
    hide HasHeading, Heading, ParsingHeading, Response, ReaderData, WriterOf, RequestFramed;
  }

  lemma CachingStarts(hash: string -> int, k: Conn, c: Cache, chunk: string, connected: bool)
    requires Wf(k.b, c) && InResponseHeading(k) && Owned(k) && HasHeading(k.respIn + chunk)
    ensures var R := k.respIn + chunk;
      k.b.parseResult.Some? &&
      (ServerRead(hash, k, c, chunk, connected).0.b.isAddDataToCash <==>
         && k.b.parseResult.value.kind.GetRequest?
         && Announced(R) && !Response(R).responseWithError
         && |R| + Response(R).contentLength < SIZE_EACH_CASH_ELEMENT
         && !Contains(c, hash(k.b.requestHeading))
         && Add(c, k.b.requestHeading, hash(k.b.requestHeading), Due(R)).1.Some?)
  {
    hide Cache.Wf, FindEndHeading, ParsingHeading, ParsingResponseHeading, HasHeading, Heading, Response, Add, Contains,
      MarkEnd;
    ServerReadHeading(hash, k, c, chunk, connected);
    hide ServerRead;
  }

  /** An origin whose client has left is one whose response is being cached. */
  lemma ServerAloneIsCaching(hash: string -> int, run: seq<Sys>, actions: seq<Action>, n: nat, i: nat)
    requires IsHistory(hash, run, actions) && n < |run| && i < |run[n].conns|
    requires OwnInTurn(hash, run, actions, n, i)
    requires run[n].conns[i].server && !run[n].conns[i].user
    ensures var k := run[n].conns[i];
      && k.b.isAddDataToCash && k.b.statusClient.EndWork?
      && (k.b.statusHttpServer.WriteResponseBody? || k.b.statusHttpServer.EndWork?)
  {
    ConnKept(hash, run, actions, n, i);
    ServerPhases(hash, run[n].conns[i], run[n].cache.store);
    hide ConnInv, IsHistory, OwnInTurn, HasHeading, Heading, Response, ParsingHeading;
  }

  /** An element stays within its reservation exactly as long as no chunk is longer than what is still
      missing of the announced body. */
  lemma SurplusIff(hash: string -> int, s: Sys, i: nat, chunk: string, connected: bool)
    requires BaseInv(hash, s) && Possible(s, ServerChunk(i, chunk, connected))
    requires ConnInv(hash, s.conns[i], s.cache.store)
    requires s.conns[i].b.isAddDataToCash && s.conns[i].b.statusHttpServer.WriteResponseBody?
    ensures var k, s' := s.conns[i], Apply(hash, s, ServerChunk(i, chunk, connected));
      && k.b.cashElement.Some? && k.b.cashElement.value < |s.cache.store| <= |s'.cache.store|
      && (s'.cache.store[k.b.cashElement.value].WithinReservation() <==> |chunk| <= k.b.lengthBody)
  {
    var k, c := s.conns[i], s.cache;
    var s' := Apply(hash, s, ServerChunk(i, chunk, connected));
    CachingOutlivesTheClient(hash, s, i, chunk, connected);
    WriterHolds(hash, k, c.store);
    StepGrows(hash, s, ServerChunk(i, chunk, connected));
    hide BaseInv, ConnInv, Apply, Possible, Elem.WithinReservation, Grows, Complete;
    assert Grows(c.store[k.b.cashElement.value], s'.cache.store[k.b.cashElement.value]);
    ReservationOf(c.store[k.b.cashElement.value], s'.cache.store[k.b.cashElement.value], k.b.lengthBody, chunk);
  }

  lemma WriterHolds(hash: string -> int, k: Conn, store: seq<Elem>)
    requires ConnInv(hash, k, store) && k.server && k.b.isAddDataToCash && k.b.statusHttpServer.WriteResponseBody?
    ensures k.b.cashElement.Some? && k.b.cashElement.value < |store|
    ensures var e := store[k.b.cashElement.value]; e.reserved == |e.heading| + |e.content| + k.b.lengthBody
  {
    ServerPhases(hash, k, store);
    hide ConnInv, HasHeading, Heading, Response, ParsingHeading;
  }

  lemma ReservationOf(e: Elem, e': Elem, missing: int, chunk: string)
    requires Grows(e, e') && e'.content == e.content + chunk && e.reserved == |e.heading| + |e.content| + missing
    ensures e'.WithinReservation() <==> |chunk| <= missing
  {
  }

  /** While a response is being cached, each chunk of the body reaches the element unchanged, and
      the end of the download is noticed with the last announced byte, client or no client. Of a client
      that has left nothing is kept in the buffer. */
  lemma CachingOutlivesTheClient(hash: string -> int, s: Sys, i: nat, chunk: string, connected: bool)
    requires BaseInv(hash, s) && Possible(s, ServerChunk(i, chunk, connected))
    requires ConnInv(hash, s.conns[i], s.cache.store)
    requires s.conns[i].b.isAddDataToCash && s.conns[i].b.statusHttpServer.WriteResponseBody?
    ensures var k, s' := s.conns[i], Apply(hash, s, ServerChunk(i, chunk, connected));
      && k.b.cashElement.Some? && k.b.cashElement.value < |s.cache.store| <= |s'.cache.store|
      && var e, e' := s.cache.store[k.b.cashElement.value], s'.cache.store[k.b.cashElement.value];
      && e'.content == e.content + chunk
      && e'.content == s'.conns[i].respIn
      && (e'.downloadEnd <==> Complete(e'.content))
      && (s'.conns[i].b.isEndSend <==> e'.downloadEnd)
      && s'.conns[i].b.buf == (if k.user then k.b.buf + chunk else "")
  {
    var k, c := s.conns[i], s.cache;
    ServerPhases(hash, k, c.store);
    assert InResponseBody(k);
    ActionKeeps(hash, k, c, ServerChunk(i, chunk, connected));
    ServerReadBody(hash, k, c, chunk, connected);
    BodyPhase(k, chunk);
    hide BaseInv, Cache.Wf, CacheInv, HashesAgree, HasHeading, Heading, Response, AfterBody, MarkEnd, ParsingHeading,
      InSomePhase, Owned, Effect, PossibleAt, UserRead;
  }

  /** The handler's own closing rules never cut a cached download short: they close the origin of a
      response being cached only once the announced body is complete, and if the client has left,
      exactly then. */
  lemma ClosingWaitsForTheBody(hash: string -> int, run: seq<Sys>, actions: seq<Action>, n: nat, i: nat)
    requires IsHistory(hash, run, actions) && n < |run| && i < |run[n].conns|
    requires OwnInTurn(hash, run, actions, n, i)
    requires run[n].conns[i].server && run[n].conns[i].b.isAddDataToCash
    ensures var k := run[n].conns[i];
      && (ServerMustClose(k.b) ==> Complete(k.respIn))
      && (!k.user ==> (ServerMustClose(k.b) <==> Complete(k.respIn)))
  {
    ConnKept(hash, run, actions, n, i);
    var k := run[n].conns[i];
    ServerPhases(hash, k, run[n].cache.store);
    hide IsHistory, OwnInTurn, HasHeading, Heading, Response, ParsingHeading, InSomePhase;
  }

  /** A client that stays is closed by the handler only when every response byte received in time has
      been counted as sent, unless the origin left before it had completed its heading; and then its
      socket has taken all of them exactly if no drain to it was cut short. And then it is closed: exactly
      if the exchange is over, or its origin is gone and there is nothing more to send on. */
  lemma ClientIsNotCutShort(hash: string -> int, run: seq<Sys>, actions: seq<Action>, n: nat, i: nat)
    requires IsHistory(hash, run, actions) && n < |run| && i < |run[n].conns|
    requires OwnInTurn(hash, run, actions, n, i)
    requires var k := run[n].conns[i]; k.user && !k.b.isDataGetCash && !k.b.error
    ensures var k := run[n].conns[i];
      && Wf(k.b, run[n].cache)
      && (UserMustClose(k.b, run[n].cache) && HasHeading(k.respIn) ==>
            && k.respOut == k.respIn
            && (k.respWire.sent == k.respIn <==> CutDrains(run, actions, n, i, true) == 0))
      && (UserMustClose(k.b, run[n].cache) <==> IsOver(k))
  {
    ConnKept(hash, run, actions, n, i);
    HistoryBase(hash, run, actions, n);
    PointersAreGood(hash, run[n], i);
    ClosedIff(hash, run[n].conns[i], run[n].cache);
    HistoryWires(hash, run, actions, n, i);
    CutsAreFailedDrains(hash, run, actions, n, i, true);
    hide BaseInv, IsHistory, OwnInTurn, ConnInv, CutDrains, Delivered, Wf;
    var k := run[n].conns[i];
    WholeIffUncut(k.respOut, k.respWire, "");
    if UserMustClose(k.b, run[n].cache) && HasHeading(k.respIn) { ClosedIsSent(hash, k, run[n].cache); }
  }

  /** Nothing more is to come of a client's exchange: its status says so, or its origin is gone and all of
      the request, or of the response as far as it may be sent on, has been counted as sent. */
  ghost predicate IsOver(k: Conn) {
    || k.b.statusClient.EndWork?
    || (!k.server && k.b.statusClient.ReadResponse? && (k.respOut == k.respIn || !HasHeading(k.respIn)))
    || (!k.server && !k.b.statusClient.ReadResponse? && HasHeading(k.reqIn) && k.reqOut == k.reqIn)
  }

  lemma ClosedIff(hash: string -> int, k: Conn, c: Cache)
    requires ConnInv(hash, k, c.store) && Wf(k.b, c) && k.user && !k.b.isDataGetCash && !k.b.error
    ensures UserMustClose(k.b, c) <==> IsOver(k)
  {
    UserPhases(hash, k, c.store);
    BufIsRest(k);
    hide Cache.Wf, HasHeading, Heading, Response, ParsingHeading, ConnInv, ResponseFramed, RequestFramed, ReaderData;
    if InRequest(k) { RequestStands(k); }
  }

  lemma RequestStands(k: Conn)
    requires InRequest(k)
    ensures !k.b.statusClient.ReadResponse? && !k.b.statusClient.EndWork?
  {
    hide HasHeading, Heading, ParsingHeading;
  }

  lemma BufIsRest(k: Conn)
    ensures k.respOut + k.b.buf == k.respIn + "" ==> (k.b.buf == "" <==> k.respOut == k.respIn)
    ensures k.reqOut + k.b.buf == k.reqIn ==> (k.b.buf == "" <==> k.reqOut == k.reqIn)
  {
    assert k.respIn + "" == k.respIn && k.respOut + "" == k.respOut && k.reqOut + "" == k.reqOut;
    assert |k.respOut + k.b.buf| == |k.respOut| + |k.b.buf| && |k.reqOut + k.b.buf| == |k.reqOut| + |k.b.buf|;
  }

  lemma ClosedIsSent(hash: string -> int, k: Conn, c: Cache)
    requires ConnInv(hash, k, c.store) && Wf(k.b, c) && k.user && !k.b.isDataGetCash && !k.b.error
    requires UserMustClose(k.b, c) && HasHeading(k.respIn)
    ensures k.respOut == k.respIn
  {
    UserPhases(hash, k, c.store);
    assert k.respOut + "" == k.respOut && k.respIn + "" == k.respIn;
    hide Cache.Wf, HasHeading, Heading, Response, ParsingHeading, ConnInv, ResponseFramed, RequestFramed;
  }
}
