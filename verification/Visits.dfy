/** Histories that can be written down: a client connects, sends a whole request heading and is given an
    origin, the request is drained, the heading of a response arrives. */
module Visits {
  import opened Wrappers
  import opened Parser
  import opened CacheSpec
  import opened BufferSpec
  import opened ProxySystem
  import opened ProxyInvariant
  import opened ProxySteps

  // ----- Requests and answers, and what the parser makes of them -----

  const POST := "POST / HTTP/1.1\r\nHost: a\r\n\r\n"
  const STATUS := "HTTP/1.1 200 OK\r\n"

  function Get(host: char): string { "GET / HTTP/1.1\r\nHost: " + [host] + END_OF_HEADING }

  /** The heading of a response that announces `n` bytes. */
  function Answer(n: nat): string { STATUS + CONTENT_LENGTH + Render(n) + END_OF_HEADING }

  lemma NoMatch(s: string, pattern: string, k: nat, o: nat)
    requires o < |pattern|
    requires k + o < |s| ==> s[k] != pattern[0] || s[k + o] != pattern[o]
    ensures !MatchesAt(s, pattern, k)
  {
    if k + |pattern| <= |s| {
      var piece := s[k..k + |pattern|];
      assert piece[0] == s[k] && piece[o] == s[k + o];
    }
  }

  /** Two bytes of the pattern are enough to rule out all earlier places. */
  lemma FirstMatch(s: string, pattern: string, r: nat, o: nat)
    requires MatchesAt(s, pattern, r) && o < |pattern|
    requires forall k | 0 <= k < r && k + o < |s| :: s[k] != pattern[0] || s[k + o] != pattern[o]
    ensures Search(s, pattern, 0) == r
  {
    forall k | 0 <= k < r ensures !MatchesAt(s, pattern, k) {
      NoMatch(s, pattern, k, o);
    }
    SearchIs(s, pattern, r);
  }

  lemma GetLetters(host: char)
    requires host != '\r'
    ensures var s := Get(host);
      && |s| == 27 && s[16..22] == HOST && s[23..] == END_OF_HEADING && s[..3] == "GET"
      && (forall k | 0 <= k < 23 && s[k] == '\r' :: k == 14)
      && (forall k | 0 <= k < 16 && s[k] == 'H' :: s[k + 1] != 'o')
  {
  }

  /** A whole GET that fits one read. */
  predicate IsGet(request: string) {
    && FindEndHeading(request) == Some(|request|) && 0 < |request| < BUF_SIZE
    && ParsingHeading(request).Some? && ParsingHeading(request).value.kind.GetRequest?
  }

  lemma GetParses(host: char)
    requires host != '\r'
    ensures IsGet(Get(host)) && |Get(host)| == 27
  {
    GetLetters(host);
    var s := Get(host);
    hide Get, Search, FindContentLength;
    assert MatchesAt(s, HOST, 16) && MatchesAt(s, END_OF_HEADING, 23);
    FirstMatch(s, END_OF_HEADING, 23, 2);
    FirstMatch(s, HOST, 16, 1);
  }

  lemma PostLetters()
    ensures |POST| == 28 && POST[17..23] == HOST && POST[24..] == END_OF_HEADING && POST[0] == 'P'
    ensures forall k | 0 <= k < 24 && POST[k] == '\r' :: k == 15
    ensures forall k | 0 <= k < 17 && POST[k] == 'H' :: POST[k + 1] != 'o'
  {
  }

  lemma PostParses()
    ensures FindEndHeading(POST) == Some(|POST|) && |POST| == 28
    ensures ParsingHeading(POST).Some? && ParsingHeading(POST).value.kind.NotGetRequest?
  {
    PostLetters();
    hide POST, Search, FindContentLength;
    assert MatchesAt(POST, HOST, 17) && MatchesAt(POST, END_OF_HEADING, 24);
    FirstMatch(POST, END_OF_HEADING, 24, 2);
    FirstMatch(POST, HOST, 17, 1);
    assert POST[..3][0] == 'P';
  }

  lemma StatusLine()
    ensures |STATUS| == 17
    ensures forall k | 0 <= k < |STATUS| :: STATUS[k] != 'C' && (STATUS[k] == '\r' ==> k == 15)
    ensures STATUS[..15] == "HTTP/1.1 200 OK"
  {
  }

  lemma AnswerParts(n: nat)
    ensures |Answer(n)| == 37 + |Render(n)|
    ensures forall k | 0 <= k < 17 :: Answer(n)[k] == STATUS[k]
    ensures forall k | 17 <= k < 33 :: Answer(n)[k] == CONTENT_LENGTH[k - 17]
    ensures forall k | 33 <= k < 33 + |Render(n)| :: Answer(n)[k] == Render(n)[k - 33] && IsDigit(Answer(n)[k])
    ensures Answer(n)[33 + |Render(n)|..] == END_OF_HEADING
  {
    hide Render;
    StatusLine();
    var d := Render(n);
    forall k | 33 <= k < 33 + |d| ensures Answer(n)[k] == d[k - 33] && IsDigit(Answer(n)[k]) {
      assert d[k - 33] in d;
    }
  }

  lemma AnswerEnds(n: nat)
    ensures FindEndHeading(Answer(n)) == Some(|Answer(n)|)
  {
    StatusLine();
    AnswerParts(n);
    hide Search, Answer, Render;
    var end := 33 + |Render(n)|;
    assert forall k | 0 <= k < |CONTENT_LENGTH| :: CONTENT_LENGTH[k] != '\r';
    assert MatchesAt(Answer(n), END_OF_HEADING, end);
    FirstMatch(Answer(n), END_OF_HEADING, end, 2);
  }

  lemma AnswerHasLength(n: nat)
    ensures FindContentLength(Answer(n)) == Some(n)
  {
    StatusLine();
    AnswerParts(n);
    forall k | 0 <= k < |STATUS| ensures !MatchesAt(Answer(n), CONTENT_LENGTH, k) {
      NoMatch(Answer(n), CONTENT_LENGTH, k, 0);
    }
    ContentLengthRoundTrip(STATUS, n, END_OF_HEADING);
  }

  function Announcing(n: nat): ParseResult { ParseResult(NormalResponse, n, true, false) }

  lemma AnswerParses(n: nat)
    ensures FindEndHeading(Answer(n)) == Some(|Answer(n)|) && ParsingResponseHeading(Answer(n)) == Announcing(n)
  {
    AnswerEnds(n);
    AnswerHasLength(n);
    StatusLine();
    AnswerParts(n);
    hide Search, FindContentLength, FindEndHeading, Answer;
    assert Answer(n)[0..15] == STATUS[..15];
    assert MatchesAt(Answer(n), "HTTP/1.1 200 OK", 0);
    SearchIs(Answer(n), "HTTP/1.1 200 OK", 0);
  }

  lemma AnswerIs(n: nat)
    ensures HasHeading(Answer(n)) && Heading(Answer(n)) == Answer(n) && Response(Answer(n)) == Announcing(n)
  {
    AnswerParses(n);
    hide FindEndHeading, ParsingResponseHeading, Answer;
    assert Answer(n)[..|Answer(n)|] == Answer(n);
  }

  // ----- Histories, action by action -----

  ghost predicate AllOrderly(hash: string -> int, run: seq<Sys>, actions: seq<Action>)
    requires |actions| <= |run|
  {
    forall j | 0 <= j < |actions| :: Possible(run[j], actions[j]) && Orderly(hash, run[j], actions[j])
  }

  lemma Prolong(hash: string -> int, run: seq<Sys>, actions: seq<Action>, a: Action)
    returns (run': seq<Sys>, actions': seq<Action>)
    requires IsHistory(hash, run, actions) && Possible(run[|run| - 1], a)
    ensures run' == run + [Apply(hash, run[|run| - 1], a)] && actions' == actions + [a]
    ensures IsHistory(hash, run', actions')
    ensures AllOrderly(hash, run, actions) && Orderly(hash, run[|run| - 1], a) ==> AllOrderly(hash, run', actions')
  {
    hide Possible, Apply, Orderly;
    run', actions' := run + [Apply(hash, run[|run| - 1], a)], actions + [a];
    forall j | 0 <= j < |actions'|
      ensures Possible(run'[j], actions'[j]) && run'[j + 1] == Apply(hash, run'[j], actions'[j])
    {
      if j < |actions| { assert Possible(run[j], actions[j]) && run[j + 1] == Apply(hash, run[j], actions[j]); }
    }
    if AllOrderly(hash, run, actions) && Orderly(hash, run[|run| - 1], a) {
      forall j | 0 <= j < |actions'| ensures Possible(run'[j], actions'[j]) && Orderly(hash, run'[j], actions'[j]) {
        if j < |actions| { assert Possible(run[j], actions[j]) && Orderly(hash, run[j], actions[j]); }
      }
    }
  }

  /** Connection `i` was accepted last; it is `k`, and the cache is `c`. */
  predicate Last(s: Sys, i: nat, k: Conn, c: Cache) { |s.conns| == i + 1 && s.conns[i] == k && s.cache == c }

  lemma LastNext(hash: string -> int, s: Sys, i: nat, k: Conn, c: Cache, a: Action)
    requires Last(s, i, k, c) && !a.Accept? && a.i == i && Wf(k.b, c) && PossibleAt(k, c, a)
    ensures Possible(s, a) && (Orderly(hash, s, a) <==> InTurn(hash, k, c, a))
    ensures var (k', c') := ApplyAt(hash, k, c, a); Last(Apply(hash, s, a), i, k', c')
  {
    hide Wf, PossibleAt, ApplyAt, InTurn;
  }

  /** One more action of the connection accepted last. */
  lemma Then(hash: string -> int, run: seq<Sys>, actions: seq<Action>, i: nat, k: Conn, c: Cache, a: Action)
    returns (run': seq<Sys>, actions': seq<Action>)
    requires |run| > 0 && IsHistory(hash, run, actions) && Last(run[|run| - 1], i, k, c)
    requires !a.Accept? && a.i == i && Wf(k.b, c) && PossibleAt(k, c, a)
    ensures IsHistory(hash, run', actions') && actions' == actions + [a] && |run'| == |run| + 1
    ensures var (k', c') := ApplyAt(hash, k, c, a); Last(run'[|run'| - 1], i, k', c')
    ensures run <= run' && |run| == |actions| + 1
    ensures AllOrderly(hash, run, actions) && InTurn(hash, k, c, a) ==> AllOrderly(hash, run', actions')
  {
    assert |run| == |actions| + 1;
    hide Apply, Possible, Orderly, PossibleAt, ApplyAt, Wf, IsHistory, InTurn, AllOrderly, Last;
    LastNext(hash, run[|run| - 1], i, k, c, a);
    run', actions' := Prolong(hash, run, actions, a);
  }

  lemma Begin(hash: string -> int) returns (run: seq<Sys>, actions: seq<Action>)
    ensures IsHistory(hash, run, actions) && run == [INITIAL] && actions == [] && AllOrderly(hash, run, actions)
  {
    run, actions := [INITIAL], [];
  }

  // ----- A client connects and sends its request -----

  lemma Connected(hash: string -> int, run: seq<Sys>, actions: seq<Action>)
    returns (run': seq<Sys>, actions': seq<Action>)
    requires |run| > 0 && IsHistory(hash, run, actions) && |run| == |actions| + 1 && AllOrderly(hash, run, actions)
    ensures IsHistory(hash, run', actions') && run <= run' && actions' == actions + [Accept]
    ensures |run'| == |actions'| + 1 && AllOrderly(hash, run', actions')
    ensures var s := run[|run| - 1]; Last(run'[|run'| - 1], |s.conns|, ACCEPTED, s.cache)
  {
    run', actions' := Prolong(hash, run, actions, Accept);
  }

  function RequestedConn(request: string): Conn
    requires ParsingHeading(request).Some?
  {
    ConnectedConn(ACCEPTED.(b := StartRelay(Receive(ACCEPTED.b, request), request, ParsingHeading(request).value)
                                   .(isReadyConnectHttpServer := false),
                            reqIn := request))
  }

  /** A connection that waits for its request to be drained. */
  ghost predicate Waiting(hash: string -> int, k: Conn, c: Cache, request: string) {
    && InRequest(k) && Owned(k) && Wf(k.b, c) && ConnInv(hash, k, c.store)
    && k.user && k.server && k.reqIn == request && k.reqOut == "" && k.b.requestHeading == request
    && k.b.buf == request && k.b.isReadyToSend && k.reqWire == SILENT
  }

  lemma AcceptedAnd(hash: string -> int, i: nat, c: Cache, request: string)
    requires FindEndHeading(request) == Some(|request|) && |request| < BUF_SIZE && ParsingHeading(request).Some?
    requires c.Wf() && !Contains(c, hash(request))
    ensures Wf(ACCEPTED.b, c)
    ensures var a := UserChunk(i, request, true); PossibleAt(ACCEPTED, c, a) && InTurn(hash, ACCEPTED, c, a)
    ensures UserRead(hash, ACCEPTED, c, request, true) == (RequestedConn(request), c)
    ensures Waiting(hash, RequestedConn(request), c, request)
  {
    hide Cache.Wf, Contains, Find, FindEndHeading, ParsingHeading, UserRead, ConnInv, InRequest, Owned,
      InRequestHeading;
    assert "" + request == request && request[..|request|] == request;
    AcceptedReads();
    UserReadHeading(hash, ACCEPTED, c, request, true);
    MissPhase(ACCEPTED, request);
    WaitingInv(hash, RequestedConn(request), c.store);
  }

  lemma AcceptedReads()
    ensures InRequestHeading(ACCEPTED) && Owned(ACCEPTED)
  {
    hide FindEndHeading, ParsingHeading;
  }

  lemma WaitingInv(hash: string -> int, k: Conn, store: seq<Elem>)
    requires InRequest(k) && Owned(k)
    ensures ConnInv(hash, k, store)
  {
    hide Owned, HasHeading, ParsingHeading, Heading;
  }

  lemma Requested(hash: string -> int, run0: seq<Sys>, actions0: seq<Action>, i: nat, c: Cache, request: string)
    returns (run: seq<Sys>, actions: seq<Action>, k: Conn)
    requires |run0| == |actions0| + 1 && IsHistory(hash, run0, actions0) && AllOrderly(hash, run0, actions0)
    requires |run0[|run0| - 1].conns| == i && run0[|run0| - 1].cache == c && c.Wf() && !Contains(c, hash(request))
    requires FindEndHeading(request) == Some(|request|) && |request| < BUF_SIZE && ParsingHeading(request).Some?
    ensures actions == actions0 + [Accept, UserChunk(i, request, true)] && |run| == |actions| + 1 && run0 <= run
    ensures IsHistory(hash, run, actions) && AllOrderly(hash, run, actions)
    ensures Last(run[|run| - 1], i, k, c) && Waiting(hash, k, c, request)
  {
    hide IsHistory, AllOrderly, FindEndHeading, ParsingHeading, Contains, PossibleAt, InTurn, UserRead, RequestedConn,
      Waiting, Wf;
    run, actions := Connected(hash, run0, actions0);
    AcceptedAnd(hash, i, c, request);
    run, actions := Then(hash, run, actions, i, ACCEPTED, c, UserChunk(i, request, true));
    k := RequestedConn(request);
  }

  // ----- The request is drained -----

  /** A connection that waits for the response to a GET. */
  ghost predicate Awaiting(hash: string -> int, k: Conn, c: Cache, request: string) {
    && InResponseHeading(k) && Owned(k) && Wf(k.b, c) && ConnInv(hash, k, c.store)
    && k.user && k.server && k.reqIn == request && k.respIn == "" && k.b.buf == "" && k.b.requestHeading == request
  }

  lemma DrainsAtOnce(hash: string -> int, i: nat, k: Conn, c: Cache, request: string, taken: nat)
    requires Waiting(hash, k, c, request) && k.b.isEndSend && 0 < |request| < BUF_SIZE
    ensures Wf(k.b, c) && PossibleAt(k, c, DrainServer(i, taken)) && InTurn(hash, k, c, DrainServer(i, taken))
    ensures var k' := DrainToServer(k, c, taken);
      Awaiting(hash, k', c, request) && k'.reqWire == Written(SILENT, request, taken)
  {
    hide Cache.Wf, HasHeading, ParsingHeading, Heading, Parsed, RequestFramed;
    assert ServerMayDrain(k, c);
    DrainServerKeeps(hash, k, c, taken);
    hide ConnInv;
    assert k.b.buf[..|k.b.buf|] == k.b.buf;
    assert "" + k.b.buf == k.b.buf;
  }

  lemma WaitingGet(hash: string -> int, k: Conn, c: Cache, request: string)
    requires Waiting(hash, k, c, request) && IsGet(request)
    ensures k.b.statusClient.WriteRequestHeading? && k.b.statusHttpServer.ReadRequest? && k.reader.NoReader?
    ensures k.b.isEndSend && !k.b.isDataGetCash
  {
    assert request[..|request|] == request;
    hide ParsingHeading, HasHeading, ConnInv, Wf;
  }

  /** A GET has been counted as sent; `taken` bytes of it have been. */
  lemma Drained(hash: string -> int, run0: seq<Sys>, actions0: seq<Action>, i: nat, c: Cache, request: string,
                taken: nat)
    returns (run: seq<Sys>, actions: seq<Action>, k: Conn)
    requires |run0| == |actions0| + 1 && IsHistory(hash, run0, actions0) && AllOrderly(hash, run0, actions0)
    requires |run0[|run0| - 1].conns| == i && run0[|run0| - 1].cache == c && c.Wf() && !Contains(c, hash(request))
    requires IsGet(request)
    ensures actions == actions0 + [Accept, UserChunk(i, request, true), DrainServer(i, taken)]
    ensures |run| == |actions| + 1 && run0 <= run && IsHistory(hash, run, actions) && AllOrderly(hash, run, actions)
    ensures Last(run[|run| - 1], i, k, c) && Awaiting(hash, k, c, request)
    ensures k.reqWire == Written(SILENT, request, taken)
  {
    hide IsHistory, AllOrderly, FindEndHeading, ParsingHeading, Contains, PossibleAt, InTurn, DrainToServer, Waiting,
      Awaiting, Written, Wf;
    var k0: Conn;
    run, actions, k0 := Requested(hash, run0, actions0, i, c, request);
    WaitingGet(hash, k0, c, request);
    DrainsAtOnce(hash, i, k0, c, request, taken);
    run, actions := Then(hash, run, actions, i, k0, c, DrainServer(i, taken));
    k := DrainToServer(k0, c, taken);
  }

  // ----- The heading of the response arrives -----

  /** A cache with room to spare, after one more element that holds the answer's heading. */
  function Grown(c: Cache, request: string, h: int, n: nat): (r: Cache)
    requires c.Wf()
    ensures r.Wf()
  {
    Cache(c.store + [Published(request, h, n + |Answer(n)|, Answer(n), c.clock)], c.list + [|c.store|],
          c.bytes + n + |Answer(n)| + |request|, c.clock + 1)
  }

  predicate HasRoom(c: Cache, request: string, n: nat) {
    c.bytes + n + |Answer(n)| + |request| < MAX_CASH_SIZE && 0 <= c.bytes
  }

  lemma AddGrows(c: Cache, request: string, h: int, n: nat)
    requires c.Wf() && HasRoom(c, request, n)
    ensures Add(c, request, h, n + |Answer(n)|)
      == (Cache(c.store + [NewElem(request, h, n + |Answer(n)| + |request|, c.clock)], c.list + [|c.store|],
                c.bytes + n + |Answer(n)| + |request|, c.clock + 1),
          Some(|c.store|))
  {
    hide Answer;
  }

  lemma PublishGrows(c: Cache, request: string, h: int, n: nat)
    requires c.Wf() && HasRoom(c, request, n)
    ensures Publish(c, request, h, n + |Answer(n)|, Answer(n)) == (Grown(c, request, h, n), Some(|c.store|))
  {
    AddGrows(c, request, h, n);
    hide Add, Answer, Cache.Wf;
    var id, e := |c.store|, NewElem(request, h, n + |Answer(n)| + |request|, c.clock);
    var e1 := e.(content := Answer(n));
    assert "" + Answer(n) == Answer(n);
    assert (c.store + [e])[id := e1] == c.store + [e1];
    assert (c.store + [e1])[id := e1] == c.store + [e1];
    assert (c.store + [e1])[id := e1.(serverConnected := true)] == c.store + [e1.(serverConnected := true)];
    assert e1.(downloadEnd := false) == e1;
  }

  /** A connection whose response is being cached, of which the heading has arrived. */
  ghost predicate Caching(hash: string -> int, k: Conn, c: Cache, id: nat, n: nat) {
    && InResponseBody(k) && Owned(k) && Wf(k.b, c)
    && k.user && k.server && k.b.isAddDataToCash && k.b.cashElement == Some(id) && k.respIn == Answer(n)
    && k.b.isHaveContentLengthResponse && k.b.lengthBody == n
  }

  lemma AnswerIsCached(hash: string -> int, k: Conn, c: Cache, request: string, n: nat)
    requires Awaiting(hash, k, c, request) && IsGet(request) && HasRoom(c, request, n)
    requires c.Wf() && !Contains(c, hash(request))
    ensures Receive(k.b, Answer(n)).buf == Answer(n)
    ensures OpenElement(hash, Receive(k.b, Answer(n)), c, Answer(n), Announcing(n))
      == (Grown(c, request, hash(request), n), Some(Some(|c.store|)))
  {
    hide Publish, Wf, Cache.Wf, Contains, Answer, Grown, Awaiting, IsGet, HasRoom;
    AwaitsGet(hash, k, c, request);
    assert "" + Answer(n) == Answer(n);
    PublishGrows(c, request, hash(request), n);
    AnswerFits(c, request, n);
  }

  lemma AwaitsGet(hash: string -> int, k: Conn, c: Cache, request: string)
    requires Awaiting(hash, k, c, request) && IsGet(request)
    ensures k.b.parseResult.Some? && k.b.parseResult.value.kind.GetRequest? && k.b.requestHeading == request
    ensures k.b.buf == "" && k.b.isClientConnect
  {
    hide ParsingHeading, ConnInv, Wf;
    assert request[..|request|] == request;
  }

  lemma AnswerFits(c: Cache, request: string, n: nat)
    requires HasRoom(c, request, n)
    ensures |Answer(n)| + n < SIZE_EACH_CASH_ELEMENT
  {
    hide Answer;
  }

  lemma AnswerFrames(b: Buf, n: nat, id: nat)
    requires b.buf == Answer(n) && n > 0
    ensures var r := AfterHeading(b, |Answer(n)|, Announcing(n), Some(Some(id)));
      && r.isHaveContentLengthResponse && r.lengthBody == n && r.isAddDataToCash && r.cashElement == Some(id)
  {
    hide FindEndBody, Answer;
  }

  lemma NotOver(b: Buf, c: Cache)
    requires Wf(b, c) && b.lengthBody > 0
    ensures MarkEnd(b, c) == c
  {
  }

  /** The connection once the answer has been read. */
  function Answering(k: Conn, n: nat, id: nat): Conn
    requires Receive(k.b, Answer(n)).buf == Answer(n)
  {
    k.(b := AfterHeading(Receive(k.b, Answer(n)), |Answer(n)|, Announcing(n), Some(Some(id))), respIn := Answer(n))
  }

  lemma AnswerArrives(hash: string -> int, k: Conn, c: Cache, request: string, n: nat)
    requires Awaiting(hash, k, c, request) && IsGet(request) && HasRoom(c, request, n) && n > 0
    requires c.Wf() && !Contains(c, hash(request))
    ensures Wf(k.b, c) && Receive(k.b, Answer(n)).buf == Answer(n)
    ensures var k' := Answering(k, n, |c.store|);
      var c' := Grown(c, request, hash(request), n);
      ServerRead(hash, k, c, Answer(n), true) == (k', c') && Caching(hash, k', c', |c.store|, n)
  {
    hide InResponseBody, InResponseHeading, Owned, FindEndHeading, HasHeading, Heading, Response, MarkEnd, Cache.Wf,
      AfterHeading, OpenElement, Contains, Answer, ConnInv, IsGet;
    AnswerIs(n);
    assert "" + Answer(n) == Answer(n);
    ServerReadHeading(hash, k, c, Answer(n), true);
    AnswerIsCached(hash, k, c, request, n);
    HeadingPhase(k, Answer(n), Some(Some(|c.store|)));
    AnswerFrames(Receive(k.b, Answer(n)), n, |c.store|);
    NotOver(Answering(k, n, |c.store|).b, Grown(c, request, hash(request), n));
  }

  lemma OriginMaySend(hash: string -> int, i: nat, k: Conn, c: Cache, chunk: string)
    requires Wf(k.b, c) && (InResponseHeading(k) || InResponseBody(k)) && 0 < |chunk| < BUF_SIZE
    ensures PossibleAt(k, c, ServerChunk(i, chunk, true)) && InTurn(hash, k, c, ServerChunk(i, chunk, true))
  {
  }

  /** The heading of the answer to a GET has arrived, and the answer is being cached. */
  lemma Answered(hash: string -> int, run0: seq<Sys>, actions0: seq<Action>, i: nat, c: Cache, request: string, n: nat)
    returns (run: seq<Sys>, actions: seq<Action>, k: Conn)
    requires |run0| == |actions0| + 1 && IsHistory(hash, run0, actions0) && AllOrderly(hash, run0, actions0)
    requires |run0[|run0| - 1].conns| == i && run0[|run0| - 1].cache == c && c.Wf() && !Contains(c, hash(request))
    requires IsGet(request) && HasRoom(c, request, n) && n > 0 && |Answer(n)| < BUF_SIZE
    ensures actions == actions0 + [Accept, UserChunk(i, request, true), DrainServer(i, BUF_SIZE),
                                   ServerChunk(i, Answer(n), true)]
    ensures |run| == |actions| + 1 && run0 <= run && IsHistory(hash, run, actions) && AllOrderly(hash, run, actions)
    ensures var c' := Grown(c, request, hash(request), n);
      Last(run[|run| - 1], i, k, c') && Caching(hash, k, c', |c.store|, n)
  {
    hide IsHistory, AllOrderly, IsGet, Contains, PossibleAt, InTurn, ServerRead, Caching, HasRoom, Answering, Cache.Wf,
      Grown, Wf, InResponseHeading, InResponseBody, Owned, ConnInv;
    var k0: Conn;
    run, actions, k0 := Drained(hash, run0, actions0, i, c, request, BUF_SIZE);
    AnswerArrives(hash, k0, c, request, n);
    AnswerParts(n);
    hide Answer;
    OriginMaySend(hash, i, k0, c, Answer(n));
    run, actions := Then(hash, run, actions, i, k0, c, ServerChunk(i, Answer(n), true));
    k := Answering(k0, n, |c.store|);
  }
}
