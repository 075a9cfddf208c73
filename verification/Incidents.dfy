/** Inputs on which the proxy does not do what it is for, as histories from the first connection on: two
    for origins that send too early, one for an origin that is replaced, one for a client that sends too
    late, one for a drain that fails, one for an origin that sends too much, and one for a cache that
    refuses an element it has room for. */
module Incidents {
  import opened Wrappers
  import opened Parser
  import opened CacheSpec
  import opened BufferSpec
  import opened ProxySystem
  import opened ProxyInvariant
  import opened ProxySteps
  import opened ProxyOrder
  import opened ProxyHistories
  import opened RelayTheorems
  import opened CacheTheorems
  import opened Agreement
  import opened Deliveries
  import opened Visits

  // ----- An origin that speaks too early -----

  /** A byte from the origin before a GET has been sent on: a second origin is attached, and when the first
      origin and the client have gone, the buffer is freed under the second. */
  lemma EarlyByteAfterGet(hash: string -> int) returns (run: seq<Sys>, actions: seq<Action>)
    ensures IsHistory(hash, run, actions)
    ensures actions == [Accept, UserChunk(0, Get('a'), true), ServerChunk(0, "x", true), CloseServer(0), CloseUser(0)]
    ensures |run| == 6 && |run[5].conns| == 1 && run[5].conns[0].origins == 1 && run[5].conns[0].frees == 1
    ensures Possible(run[2], actions[2]) && !Orderly(hash, run[2], actions[2])
  {
    hide IsHistory, Possible, Orderly, DeleteServer, DeleteUser, Wf, AllOrderly, PossibleAt, InTurn, Get;
    var k: Conn;
    run, actions, k := SecondOrigin(hash);
    CanClose(k, EMPTY);
    run, actions := Then(hash, run, actions, 0, k, EMPTY, CloseServer(0));
    var k2 := DeleteServer(k, EMPTY).0;
    CanClose(k2, EMPTY);
    run, actions := Then(hash, run, actions, 0, k2, EMPTY, CloseUser(0));
  }

  lemma SecondOrigin(hash: string -> int) returns (run: seq<Sys>, actions: seq<Action>, k: Conn)
    ensures IsHistory(hash, run, actions) && |run| == 4 && Last(run[3], 0, k, EMPTY) && Wf(k.b, EMPTY) && k.server
    ensures actions == [Accept, UserChunk(0, Get('a'), true), ServerChunk(0, "x", true)]
    ensures Possible(run[2], actions[2]) && !Orderly(hash, run[2], actions[2])
    ensures var k2 := DeleteServer(k, EMPTY).0;
      && DeleteServer(k, EMPTY).1 == EMPTY && Wf(k2.b, EMPTY) && k2.user && k2.reader.NoReader?
      && DeleteUser(k2, EMPTY).0.frees == 1 && DeleteUser(k2, EMPTY).0.origins == 1
  {
    hide IsHistory, Possible, Orderly, UserRead, ServerRead, DeleteServer, DeleteUser, Wf, AllOrderly, PossibleAt,
      InTurn, Waiting, IsGet, Get, InRequest, Owned, Contains;
    var k0: Conn;
    run, actions := Begin(hash);
    GetParses('a');
    GetIsParsed(Get('a'));
    run, actions, k0 := Requested(hash, run, actions, 0, EMPTY, Get('a'));
    WaitingGet(hash, k0, EMPTY, Get('a'));
    WaitsForOrigin(hash, k0, EMPTY, Get('a'));
    EarlyAnswerConnectsTwice(hash, k0, EMPTY, "x");
    EarlyByte(hash, run[2], k0, EMPTY);
    run, actions := Then(hash, run, actions, 0, k0, EMPTY, ServerChunk(0, "x", true));
    k := ServerRead(hash, k0, EMPTY, "x", true).0;
  }

  lemma GetIsParsed(request: string)
    requires IsGet(request)
    ensures FindEndHeading(request) == Some(|request|) && |request| < BUF_SIZE && ParsingHeading(request).Some?
    ensures !Contains(EMPTY, 0) && forall h :: !Contains(EMPTY, h)
  {
  }

  lemma WaitsForOrigin(hash: string -> int, k: Conn, c: Cache, request: string)
    requires Waiting(hash, k, c, request)
    ensures Wf(k.b, c) && InRequest(k) && Owned(k) && k.server && k.reqOut == "" && k.reqIn == request
    ensures k.b.requestHeading == request && k.b.statusHttpServer.ReadRequest? && k.reqWire == SILENT
  {
    hide Wf, ConnInv, HasHeading, ParsingHeading, Heading;
  }

  lemma EarlyByte(hash: string -> int, s: Sys, k: Conn, c: Cache)
    requires Last(s, 0, k, c) && Wf(k.b, c) && k.server && k.b.statusHttpServer.ReadRequest?
    ensures var a := ServerChunk(0, "x", true); PossibleAt(k, c, a) && Possible(s, a) && !Orderly(hash, s, a)
  {
    hide Wf;
  }

  lemma CanClose(k: Conn, c: Cache)
    requires Wf(k.b, c)
    ensures k.server ==> PossibleAt(k, c, CloseServer(0))
    ensures k.user && k.reader.NoReader? ==> PossibleAt(k, c, CloseUser(0))
  {
  }

  /** A byte from the origin while it is being sent a POST: it is sent back to the origin. */
  lemma EarlyByteAfterPost(hash: string -> int) returns (run: seq<Sys>, actions: seq<Action>)
    ensures IsHistory(hash, run, actions)
    ensures actions == [Accept, UserChunk(0, POST, true), ServerChunk(0, "x", true), DrainServer(0, BUF_SIZE)]
    ensures |run| == 5 && |run[4].conns| == 1
    ensures run[4].conns[0].reqIn == POST && run[4].conns[0].reqWire == Wire(POST + "x", 0)
    ensures Possible(run[2], actions[2]) && !Orderly(hash, run[2], actions[2])
  {
    hide IsHistory, Possible, Orderly, UserRead, ServerRead, Wf, AllOrderly, PossibleAt, InTurn, Waiting, DrainToServer,
      FindEndHeading, ParsingHeading, POST, InRequest, Owned;
    var k: Conn;
    run, actions := Begin(hash);
    PostParses();
    run, actions, k := Requested(hash, run, actions, 0, EMPTY, POST);
    WaitsForOrigin(hash, k, EMPTY, POST);
    WaitingPost(k);
    EarlyAnswerIsTaken(hash, k, EMPTY, "x", true, BUF_SIZE);
    EarlyAnswerGoesBack(hash, k, EMPTY, "x", true, BUF_SIZE);
    var k1 := ServerRead(hash, k, EMPTY, "x", true).0;
    EarlyByte(hash, run[2], k, EMPTY);
    run, actions := Then(hash, run, actions, 0, k, EMPTY, ServerChunk(0, "x", true));
    run, actions := Then(hash, run, actions, 0, k1, EMPTY, DrainServer(0, BUF_SIZE));
    assert "" + (POST + "x") == POST + "x";
  }

  lemma WaitingPost(k: Conn)
    requires InRequest(k) && Owned(k) && k.server && k.b.requestHeading == POST
    ensures k.b.statusClient.WriteRequestBody?
  {
    PostParses();
    hide ParsingHeading, HasHeading, Heading;
  }

  // ----- An origin that is replaced -----

  /** The origin of a GET hangs up before it has been sent the request, and the client sends one byte more:
      another origin is attached in its place, and the buffer is owned properly, although the byte came out
      of turn; but the new origin has to be closed before it has been sent anything. */
  lemma ReplacedOrigin(hash: string -> int) returns (run: seq<Sys>, actions: seq<Action>)
    ensures IsHistory(hash, run, actions)
    ensures actions == [Accept, UserChunk(0, Get('a'), true), CloseServer(0), UserChunk(0, "x", true)]
    ensures Possible(run[3], actions[3]) && !Orderly(hash, run[3], actions[3])
    ensures |run| == 5 && |run[4].conns| == 1 && Owned(run[4].conns[0]) && run[4].conns[0].server
    ensures ServerMustClose(run[4].conns[0].b) && run[4].conns[0].reqWire == SILENT
  {
    hide IsHistory, Possible, Orderly, UserRead, Wf, AllOrderly, PossibleAt, InTurn, Get, InRequest, Owned,
      ServerMustClose, ServerMayDrain, ParsesInVain;
    var k: Conn;
    run, actions, k := OriginLost(hash);
    LateByteReplacesOrigin(hash, k, EMPTY, "x");
    LateByteParses(hash, k);
    ByteAgain(hash, run[3], k, EMPTY);
    run, actions := Then(hash, run, actions, 0, k, EMPTY, UserChunk(0, "x", true));
    UserReadWritesNothing(hash, k, EMPTY, "x", true);
  }

  lemma OriginLost(hash: string -> int) returns (run: seq<Sys>, actions: seq<Action>, k: Conn)
    ensures IsHistory(hash, run, actions) && |run| == 4 && Last(run[3], 0, k, EMPTY) && Wf(k.b, EMPTY)
    ensures actions == [Accept, UserChunk(0, Get('a'), true), CloseServer(0)]
    ensures InRequest(k) && Owned(k) && !k.server && k.user && k.reader.NoReader? && k.reqOut == ""
    ensures k.b.statusClient.WriteRequestHeading? && k.b.isEndSend && !Contains(EMPTY, hash(k.b.requestHeading))
    ensures k.reqWire == SILENT
  {
    hide IsHistory, Possible, Orderly, DeleteServer, Wf, AllOrderly, PossibleAt, InTurn, Waiting, IsGet, Get, InRequest,
      Owned, Contains;
    var k0: Conn;
    run, actions := Begin(hash);
    GetParses('a');
    GetIsParsed(Get('a'));
    run, actions, k0 := Requested(hash, run, actions, 0, EMPTY, Get('a'));
    WaitingGet(hash, k0, EMPTY, Get('a'));
    WaitsForOrigin(hash, k0, EMPTY, Get('a'));
    CanClose(k0, EMPTY);
    run, actions := Then(hash, run, actions, 0, k0, EMPTY, CloseServer(0));
    OriginLeaves(k0);
    k := DeleteServer(k0, EMPTY).0;
  }

  lemma OriginLeaves(k: Conn)
    requires Wf(k.b, EMPTY) && InRequest(k) && Owned(k) && k.server && k.b.statusClient.WriteRequestHeading?
    ensures var (k', c') := DeleteServer(k, EMPTY);
      && c' == EMPTY && Wf(k'.b, EMPTY) && InRequest(k') && Owned(k') && !k'.server && k'.user && k'.reader.NoReader?
      && k'.b == k.b.(statusHttpServer := EndWork, isServerConnect := false)
      && k'.reqOut == k.reqOut && k'.reqIn == k.reqIn && k'.reqWire == k.reqWire
  {
    hide HasHeading, ParsingHeading, Heading;
  }

  lemma LateByteParses(hash: string -> int, k: Conn)
    requires InRequest(k) && k.reqOut == ""
    ensures !ParsesInVain(hash, k.b, EMPTY, "x", true)
  {
    hide FindEndHeading, ParsingHeading;
    assert k.b.buf == k.reqIn;
    FramingIsStable(k.reqIn, "x");
  }

  lemma ByteAgain(hash: string -> int, s: Sys, k: Conn, c: Cache)
    requires Last(s, 0, k, c) && Wf(k.b, c) && k.user && k.reader.NoReader?
    requires k.b.statusClient.WriteRequestHeading? && k.b.isEndSend && !ParsesInVain(hash, k.b, c, "x", true)
    ensures var a := UserChunk(0, "x", true); PossibleAt(k, c, a) && Possible(s, a) && !Orderly(hash, s, a)
  {
    hide Wf, ParsesInVain;
  }

  // ----- A drain that fails -----

  /** The write of a request fails: the origin gets nothing, and the relay waits for its response. */
  lemma FailedDrain(hash: string -> int) returns (run: seq<Sys>, actions: seq<Action>)
    ensures IsHistory(hash, run, actions) && actions == [Accept, UserChunk(0, Get('a'), true), DrainServer(0, 0)]
    ensures AllOrderly(hash, run, actions) && |run| == 4 && |run[3].conns| == 1
    ensures var k := run[3].conns[0];
      k.reqIn == Get('a') && k.reqWire == Wire("", 1) && k.b.buf == "" && k.b.statusHttpServer.WriteResponseHeading?
  {
    hide IsHistory, Possible, Orderly, Wf, AllOrderly, IsGet, Get, Awaiting, Contains, Written;
    var k: Conn;
    run, actions := Begin(hash);
    GetParses('a');
    GetIsParsed(Get('a'));
    run, actions, k := Drained(hash, run, actions, 0, EMPTY, Get('a'), 0);
    NothingTaken(Get('a'));
    AwaitsAnswer(hash, k, EMPTY, Get('a'));
  }

  lemma NothingTaken(request: string)
    requires request != ""
    ensures Written(SILENT, request, 0) == Wire("", 1)
  {
  }

  lemma AwaitsAnswer(hash: string -> int, k: Conn, c: Cache, request: string)
    requires Awaiting(hash, k, c, request)
    ensures k.reqIn == request && k.b.buf == "" && k.b.statusHttpServer.WriteResponseHeading?
  {
    hide ConnInv, Wf, HasHeading, Parsed;
  }

  // ----- An origin that sends more than it announced -----

  /** The cache that holds the heading of the answer to the first GET: 66 bytes are reserved, 65 held. */
  function Cached(hash: string -> int): Cache { Grown(EMPTY, Get('a'), hash(Get('a')), 1) }

  lemma FirstIs()
    ensures |Answer(1)| == 38 && IsGet(Get('a')) && |Get('a')| == 27
  {
    hide Answer, Get, IsGet;
    GetParses('a');
    AnswerParts(1);
    assert Render(1) == "1";
  }

  lemma CachedIs(hash: string -> int)
    ensures |Answer(1)| == 38 && IsGet(Get('a')) && |Get('a')| == 27
    ensures HasRoom(EMPTY, Get('a'), 1) && !Contains(EMPTY, hash(Get('a'))) && Cached(hash).Wf()
    ensures Cached(hash) == Cache([Published(Get('a'), hash(Get('a')), 39, Answer(1), 0)], [0], 66, 1)
  {
    hide Answer, Get, IsGet;
    FirstIs();
    var e := Published(Get('a'), hash(Get('a')), 39, Answer(1), 0);
    assert EMPTY.store + [e] == [e] && EMPTY.list + [0] == [0];
  }

  /** The heading of the answer to the first GET has arrived. */
  lemma FirstAnswer(hash: string -> int) returns (run: seq<Sys>, actions: seq<Action>, k: Conn)
    ensures IsHistory(hash, run, actions) && AllOrderly(hash, run, actions) && |run| == 5
    ensures actions
      == [Accept, UserChunk(0, Get('a'), true), DrainServer(0, BUF_SIZE), ServerChunk(0, Answer(1), true)]
    ensures Last(run[4], 0, k, Cached(hash)) && Caching(hash, k, Cached(hash), 0, 1)
  {
    hide IsHistory, AllOrderly, Caching, IsGet, Get, Answer, Contains, HasRoom;
    run, actions := Begin(hash);
    CachedIs(hash);
    run, actions, k := Answered(hash, run, actions, 0, EMPTY, Get('a'), 1);
  }

  /** The announced byte and one more: the element outgrows its reservation, and the cache holds more
      than its counter says. */
  lemma Surplus(hash: string -> int) returns (run: seq<Sys>, actions: seq<Action>)
    ensures IsHistory(hash, run, actions) && AllOrderly(hash, run, actions) && |run| == 6
    ensures actions
      == [Accept, UserChunk(0, Get('a'), true), DrainServer(0, BUF_SIZE), ServerChunk(0, Answer(1), true),
          ServerChunk(0, "ab", true)]
    ensures SurplusHeld(run[5].cache)
  {
    hide IsHistory, Possible, Orderly, Owned, ServerRead, Wf, InResponseHeading, InResponseBody, AllOrderly, InTurn,
      PossibleAt, SurplusHeld, Answer, Cached;
    var k: Conn;
    run, actions, k := FirstAnswer(hash);
    var c := Cached(hash);
    OriginMaySend(hash, 0, k, c, "ab");
    run, actions := Then(hash, run, actions, 0, k, c, ServerChunk(0, "ab", true));
    SurplusArrives(hash, k, c);
  }

  /** One element, for which 66 bytes are reserved and counted, holds 67. */
  ghost predicate SurplusHeld(c: Cache) {
    && c.Wf() && c.bytes == ReservedInCache(c) == 66 && HeldInCache(c) == 67
    && |c.store| == 1 && !c.store[0].WithinReservation()
  }

  lemma SurplusArrives(hash: string -> int, k: Conn, c: Cache)
    requires c == Cached(hash) && Caching(hash, k, c, 0, 1)
    ensures Wf(k.b, c) && SurplusHeld(ServerRead(hash, k, c, "ab", true).1)
  {
    hide InResponseBody, Owned, HeldInCache, ReservedInCache, ServerRead, FindEndBody, Cached, Wf, Answer, Get, IsGet,
      Contains, HasRoom;
    CachedIs(hash);
    Calm(k);
    ServerReadBody(hash, k, c, "ab", true);
    var e := c.store[0];
    var k' := WithBody(k, "ab");
    MarkedAppend(k', c, 0, "ab");
    var e' := e.(content := e.content + "ab", downloadEnd := true);
    assert [e][0 := e'] == [e'];
    OneElementSums(e', 66, 1);
  }

  lemma Calm(k: Conn)
    requires Owned(k)
    ensures !k.b.isReadyConnectHttpServer
  {
  }

  // ----- A client that sends while its response is being cached -----

  /** The announced byte comes from the client instead of the origin: it is cached as the origin's, and the
      download counts as complete, although the origin has sent the heading only. */
  lemma LateByteIntoCache(hash: string -> int) returns (run: seq<Sys>, actions: seq<Action>)
    ensures IsHistory(hash, run, actions) && |run| == 6
    ensures actions
      == [Accept, UserChunk(0, Get('a'), true), DrainServer(0, BUF_SIZE), ServerChunk(0, Answer(1), true),
          UserChunk(0, "y", true)]
    ensures Possible(run[4], actions[4]) && !Orderly(hash, run[4], actions[4])
    ensures |run[5].conns| == |run[5].cache.store| == 1 && WritesTo(run[5].conns[0], 0)
    ensures run[5].conns[0].respIn == Answer(1) && run[5].conns[0].server
    ensures run[5].cache.store[0].content == Answer(1) + "y" && run[5].cache.store[0].downloadEnd
  {
    hide IsHistory, Possible, Orderly, Owned, UserRead, ConnInv, Wf, InResponseBody, AllOrderly, InTurn, PossibleAt,
      Role, WritesTo, Answer, Cached, Cache.Wf;
    var k: Conn;
    run, actions, k := FirstAnswer(hash);
    var c := Cached(hash);
    WriterIsKnown(hash, run, actions, k, c);
    LateByteJoinsElement(hash, k, c, "y", true);
    InBody(k);
    LateByte(hash, run[4], k, c);
    run, actions := Then(hash, run, actions, 0, k, c, UserChunk(0, "y", true));
    StillWriter(hash, k, c, "y");
    OneStored(hash);
  }

  lemma OneStored(hash: string -> int)
    ensures |Cached(hash).store| == 1
  {
    CachedIs(hash);
  }

  lemma WriterIsKnown(hash: string -> int, run: seq<Sys>, actions: seq<Action>, k: Conn, c: Cache)
    requires IsHistory(hash, run, actions) && AllOrderly(hash, run, actions) && |run| == 5 && Last(run[4], 0, k, c)
    ensures c.Wf() && Role(k, c.store) && ConnInv(hash, k, c.store)
  {
    hide Possible, Orderly, Apply, ConnInv, Role;
    HistoryBase(hash, run, actions, 4);
    PointersAreGood(hash, run[4], 0);
    ConnKept(hash, run, actions, 4, 0);
  }

  lemma InBody(k: Conn)
    requires InResponseBody(k) && k.user && Owned(k)
    ensures k.b.statusHttpServer.WriteResponseBody? && k.b.statusClient.ReadResponse? && k.reader.NoReader? && k.server
  {
    hide HasHeading, Heading, Response;
  }

  lemma LateByte(hash: string -> int, s: Sys, k: Conn, c: Cache)
    requires Last(s, 0, k, c) && Wf(k.b, c) && k.user && k.reader.NoReader? && k.b.statusClient.ReadResponse?
    ensures var a := UserChunk(0, "y", true); PossibleAt(k, c, a) && Possible(s, a) && !Orderly(hash, s, a)
  {
    hide Wf;
  }

  lemma StillWriter(hash: string -> int, k: Conn, c: Cache, chunk: string)
    requires c.Wf() && Role(k, c.store) && Wf(k.b, c) && k.user && k.server && k.reader.NoReader? && chunk != ""
    requires k.b.isAddDataToCash && k.b.cashElement == Some(0) && k.b.statusHttpServer.WriteResponseBody?
    ensures var (k', c') := UserRead(hash, k, c, chunk, true);
      WritesTo(k', 0) && k'.server && k'.respIn == k.respIn && |c'.store| == |c.store|
  {
    hide Cache.Wf, FindEndBody, OnRequestHeading, OnResponseHeading;
  }

  // ----- A cache that refuses an element it has room for -----

  /** With the answers to three requests announcing one byte, almost all of the cache, and one byte: */
  const BIG := 1073741683

  lemma BigIs()
    ensures |Answer(BIG)| == 47
  {
    AnswerParts(BIG);
    hide Answer;
    assert |Render(1073741)| == 7;
    assert |Render(1073741683)| == 10;
  }

  /** The cache that holds the headings of the first two answers. */
  function Filled(hash: string -> int): Cache { Grown(Cached(hash), Get('b'), hash(Get('b')), BIG) }

  lemma FilledIs(hash: string -> int)
    requires hash(Get('b')) != hash(Get('a'))
    ensures IsGet(Get('b')) && |Answer(BIG)| == 47 && HasRoom(Cached(hash), Get('b'), BIG)
    ensures !Contains(Cached(hash), hash(Get('b')))
    ensures Filled(hash) == Grown(Cached(hash), Get('b'), hash(Get('b')), BIG)
    ensures var e, e' := Published(Get('a'), hash(Get('a')), 39, Answer(1), 0),
                         Published(Get('b'), hash(Get('b')), BIG + 47, Answer(BIG), 1);
      Filled(hash) == Cache([e, e'], [0, 1], MAX_CASH_SIZE - 1, 2) && e.Held() == 65 && e'.Held() == 74
  {
    hide Answer, Get, IsGet, Cached;
    CachedIs(hash);
    BigIs();
    GetParses('b');
    var e, e' := Published(Get('a'), hash(Get('a')), 39, Answer(1), 0),
      Published(Get('b'), hash(Get('b')), BIG + 47, Answer(BIG), 1);
    assert [e] + [e'] == [e, e'] && [0] + [1] == [0, 1];
  }

  /** After two requests of which only the headings of the answers have arrived, a third answer is not
      cached, although no element is in use and evicting both would make room for it. */
  lemma RoomMissed(hash: string -> int) returns (run: seq<Sys>, actions: seq<Action>)
    requires hash(Get('a')) != hash(Get('b')) && hash(Get('c')) !in {hash(Get('a')), hash(Get('b'))}
    ensures IsHistory(hash, run, actions) && AllOrderly(hash, run, actions) && |run| == 13
    ensures actions
      == [Accept, UserChunk(0, Get('a'), true), DrainServer(0, BUF_SIZE), ServerChunk(0, Answer(1), true),
          Accept, UserChunk(1, Get('b'), true), DrainServer(1, BUF_SIZE), ServerChunk(1, Answer(BIG), true),
          Accept, UserChunk(2, Get('c'), true), DrainServer(2, BUF_SIZE), ServerChunk(2, Answer(1), true)]
    ensures HasHeading(Answer(1))
    ensures var c, d := run[11].cache, Due(Answer(1)) + |Get('c')|;
      && c.Wf() && c.list == [0, 1] && |c.store| == 2 && c.store[0].users == c.store[1].users == 0
      && c.bytes - Unused(c, 0) + d < MAX_CASH_SIZE
      && Add(c, Get('c'), hash(Get('c')), Due(Answer(1))).1.None?
    ensures |run[12].conns| == 3 && run[12].conns[2].respIn == Answer(1) && !run[12].conns[2].b.isAddDataToCash
  {
    hide IsHistory, AllOrderly, Caching, IsGet, Get, Answer, Contains, HasRoom, Cached, Filled, Awaiting, InTurn,
      PossibleAt, ServerRead, Wf, HasHeading, Due, Unused, Add, Cache.Wf, Last, Written;
    var k: Conn;
    run, actions, k := FirstAnswer(hash);
    LastIs(run[4], 0, k, Cached(hash));
    FilledIs(hash);
    CachedIs(hash);
    run, actions, k := Answered(hash, run, actions, 1, Cached(hash), Get('b'), BIG);
    LastIs(run[8], 1, k, Filled(hash));
    var c := Filled(hash);
    NotFilled(hash);
    run, actions, k := Drained(hash, run, actions, 2, c, Get('c'), BUF_SIZE);
    LastIs(run[11], 2, k, c);
    ThirdAnswer(hash, k);
    run, actions := Then(hash, run, actions, 2, k, c, ServerChunk(2, Answer(1), true));
    LastIs(run[12], 2, ServerRead(hash, k, c, Answer(1), true).0, ServerRead(hash, k, c, Answer(1), true).1);
  }

  lemma LastIs(s: Sys, i: nat, k: Conn, c: Cache)
    requires Last(s, i, k, c)
    ensures |s.conns| == i + 1 && s.conns[i] == k && s.cache == c
  {
  }

  lemma NotFilled(hash: string -> int)
    requires hash(Get('a')) != hash(Get('b')) && hash(Get('c')) !in {hash(Get('a')), hash(Get('b'))}
    ensures var c := Filled(hash);
      && c.Wf() && IsGet(Get('c')) && |Get('c')| == 27 && !Contains(c, hash(Get('c')))
      && HasHeading(Answer(1)) && Due(Answer(1)) == 39
      && c.list == [0, 1] && |c.store| == 2 && c.store[0].users == c.store[1].users == 0
      && c.bytes - Unused(c, 0) + 66 < MAX_CASH_SIZE
      && Add(c, Get('c'), hash(Get('c')), 39).1.None?
  {
    hide Answer, Get, IsGet, Filled, Cached, Add, HasHeading, Heading, Response;
    FilledIs(hash);
    CachedIs(hash);
    GetParses('c');
    AnswerIs(1);
    var c := Filled(hash);
    assert Unused(c, 2) == 0 && Unused(c, 1) == 74 && Unused(c, 0) == 139;
    assert Freed(c, 2) == 0 && Freed(c, 0) == 65;
    AddRefusesIff(c, Get('c'), hash(Get('c')), 39);
  }

  lemma ThirdAnswer(hash: string -> int, k: Conn)
    requires hash(Get('a')) != hash(Get('b')) && hash(Get('c')) !in {hash(Get('a')), hash(Get('b'))}
    requires Awaiting(hash, k, Filled(hash), Get('c'))
    ensures var c, a := Filled(hash), ServerChunk(2, Answer(1), true);
      && Wf(k.b, c) && PossibleAt(k, c, a) && InTurn(hash, k, c, a)
      && var k' := ServerRead(hash, k, c, Answer(1), true).0;
      k'.respIn == Answer(1) && !k'.b.isAddDataToCash
  {
    hide Answer, Get, IsGet, Filled, Cached, Add, HasHeading, Heading, Response, Due, ConnInv, Wf, InResponseHeading,
      Owned, ServerRead, PossibleAt, InTurn, Unused, Contains;
    var c := Filled(hash);
    NotFilled(hash);
    CachedIs(hash);
    assert "" + Answer(1) == Answer(1);
    OriginMaySend(hash, 2, k, c, Answer(1));
    CachingStarts(hash, k, c, Answer(1), true);
    ReadsTheAnswer(hash, k, c);
  }

  lemma ReadsTheAnswer(hash: string -> int, k: Conn, c: Cache)
    requires Awaiting(hash, k, c, Get('c'))
    ensures Wf(k.b, c) && ServerRead(hash, k, c, Answer(1), true).0.respIn == Answer(1)
  {
    hide Answer, Get, HasHeading, Heading, Response, ConnInv, Wf, InResponseHeading, Owned, OpenElement, MarkEnd,
      AfterHeading, ServerRead;
    assert "" + Answer(1) == Answer(1);
    ServerReadHeading(hash, k, c, Answer(1), true);
  }
}
