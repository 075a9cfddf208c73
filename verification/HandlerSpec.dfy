/** One pass of the handler over one endpoint, on values (lab32v2/server/HandlerOneClientImpl.cpp,
    lines 60-179), and the proof that a pass is nothing but actions of the transition system. */
module HandlerSpec {
  import opened Wrappers
  import opened Parser
  import opened CacheSpec
  import opened BufferSpec
  import opened ProxySystem

  /** What `poll`, `read` and `write` report about an endpoint, in the order in which the handler looks.
      A chunk hides that the endpoint can also be written to. `connected` tells whether the origin
      accepts a connection, should one be needed, and `outcome` what a write will return. */
  datatype Event =
    | HungUp
    | ReadFailed
    | Received(chunk: string, connected: bool)
    | Writable(outcome: int)
    | Nothing

  predicate HasChunk(e: Event) { e.Received? && e.chunk != "" }

  /** One read returns less than a buffer. */
  predicate IsRead(e: Event) { e.Received? ==> |e.chunk| < BUF_SIZE }

  /** What the socket takes of a write that returns `outcome`. */
  function Taken(outcome: int): nat { if outcome < 0 then 0 else outcome }

  /** The one case in which the source puts a second origin on a buffer, beside one that is still there. */
  predicate PassAsksAgain(hash: string -> int, k: Conn, c: Cache, e: Event)
    requires Wf(k.b, c)
  {
    HasChunk(e) && AsksAgain(hash, k, c, e.chunk, e.connected)
  }

  /** What holds of a connection when a pass begins: the endpoints know each other, and a response that
      comes finds its request. */
  predicate SteadyConn(k: Conn) {
    (k.user ==> (k.userHasPair <==> k.server)) && HasParsedRequest(k.b)
  }

  // ----- The pass over the user's endpoint -----

  function ServeUser(hash: string -> int, k: Conn, c: Cache, e: Event): (Conn, Cache)
    requires Wf(k.b, c)
  {
    match e
    case HungUp => DeleteUser(k, c)
    case ReadFailed => (k, c)
    case Received(chunk, connected) =>
      if chunk == "" then DeleteUser(k, c)
      else
        var (k1, c1) := UserRead(hash, k, c, chunk, connected);
        UserReadKeepsWf(hash, k, c, chunk, connected);
        if k1.reader.TestOrigin? || !k1.user then (k1, c1) else UserRules(k1, c1, None)
    case Writable(outcome) => UserRules(k, c, Some(outcome))
    case Nothing => UserRules(k, c, None)
  }

  /** Whether a pass over the user's endpoint ends the loop: the client has become a cache reader
      (line 82), or no origin was reached (line 115). */
  predicate EndsLoop(hash: string -> int, k: Conn, c: Cache, e: Event)
    requires Wf(k.b, c)
  {
    HasChunk(e) &&
    var k1 := UserRead(hash, k, c, e.chunk, e.connected).0;
    k1.reader.TestOrigin? || !k1.user
  }

  /** The closing rules and, if the endpoint can be written to, one drain (lines 124-171). Asking
      whether there is anything to send may raise the flag, whatever follows. */
  function UserRules(k: Conn, c: Cache, writable: Option<int>): (Conn, Cache)
    requires Wf(k.b, c)
  {
    if UserMustClose(k.b, c) then DeleteUser(k, c)
    else if writable.Some? && UserMayDrain(k, c) then
      DrainKeepsWf(k.b, c);
      FinishIfClosed(DrainToUser(k, c, Taken(writable.value)), c)
    else (if k.b.statusHttpServer.EndWork? || writable.Some? then LookAt(k, c) else k, c)
  }

  /** The response has been sent: the user's endpoint is closed at once (lines 165-170). */
  function FinishIfClosed(k: Conn, c: Cache): (Conn, Cache)
    requires Wf(k.b, c)
  {
    if !k.b.statusHttpServer.EndWork? then (k, c)
    else if RefreshReady(k.b, c).isReadyToSend then (LookAt(k, c), c)
    else DeleteUser(k, c)
  }

  // ----- The pass over the origin's endpoint -----

  function ServeOrigin(hash: string -> int, k: Conn, c: Cache, e: Event): (Conn, Cache)
    requires Wf(k.b, c)
  {
    match e
    case HungUp => DeleteServer(k, c)
    case ReadFailed => (k, c)
    case Received(chunk, connected) =>
      if chunk == "" then DeleteServer(k, c)
      else
        var (k1, c1) := ServerRead(hash, k, c, chunk, connected);
        ServerReadKeepsWf(hash, k, c, chunk, connected);
        if !k1.server then (k1, c1) else OriginRules(k1, c1, None)
    case Writable(outcome) => OriginRules(k, c, Some(outcome))
    case Nothing => OriginRules(k, c, None)
  }

  function OriginRules(k: Conn, c: Cache, writable: Option<int>): (Conn, Cache)
    requires Wf(k.b, c)
  {
    if ServerMustClose(k.b) then DeleteServer(k, c)
    else if writable.None? then (k, c)
    else (if ServerMayDrain(k, c) then DrainToServer(k, c, Taken(writable.value)) else LookAt(k, c), c)
  }

  /** The flag is raised once; the next chunk does not depend on it. */
  lemma RefreshedOnce(b: Buf, c: Cache)
    requires Wf(b, c)
    ensures var b1 := RefreshReady(b, c);
      && Wf(b1, c) && RefreshReady(b1, c) == b1
      && SendBuf(b1, c, "") == SendBuf(b, c, "")
      && (!b1.isReadyToSend ==> b1 == b)
      && b1.statusClient == b.statusClient && b1.statusHttpServer == b.statusHttpServer
  {
    hide Cache.Wf;
  }

  lemma ReadyStays(b: Buf, c: Cache)
    requires Wf(b, c) && b.isReadyToSend
    ensures RefreshReady(b, c) == b
  {
    hide Cache.Wf;
  }

  lemma ChunkFits(b: Buf, c: Cache)
    requires Wf(b, c)
    ensures !b.isDataGetCash ==> |SendBuf(b, c, "")| <= |b.buf|
  {
    hide Cache.Wf;
  }

  predicate SameEnds(b: Buf, r: Buf) {
    r.isClientConnect == b.isClientConnect && r.isServerConnect == b.isServerConnect
  }

  /** A buffer that turns to the cache has parsed its request and awaits the response, and never turns
      back; one that asks for an origin does not await a response. */
  predicate MeetsCacheInOrder(b: Buf, o: Out) {
    && (o.b.isDataGetCash && !b.isDataGetCash ==>
          o.ok && o.b.statusClient.ReadResponse? && b.statusClient.WriteRequestHeading?)
    && (b.isDataGetCash ==> o.b.isDataGetCash)
    && (o.b.isReadyConnectHttpServer && !b.isReadyConnectHttpServer ==> !o.b.statusClient.ReadResponse?)
  }

  lemma StartKeepsEnds(b: Buf, heading: string, parsed: ParseResult, id: nat)
    ensures SameEnds(b, StartReading(b, heading, parsed, id)) && SameEnds(b, StartRelay(b, heading, parsed))
    ensures StartRelay(b, heading, parsed).isDataGetCash == b.isDataGetCash
    ensures b.statusClient.WriteRequestHeading? ==> !StartRelay(b, heading, parsed).statusClient.ReadResponse?
    ensures StartReading(b, heading, parsed, id).isReadyConnectHttpServer == b.isReadyConnectHttpServer
    ensures StartReading(b, heading, parsed, id).isDataGetCash
  {
  }

  lemma ParsedKeepsEnds(hash: string -> int, b: Buf, c: Cache, heading: string, parsed: ParseResult)
    requires Wf(b, c) && b.statusClient.WriteRequestHeading?
    ensures var o := OnParsedRequest(hash, b, c, heading, parsed); SameEnds(b, o.b) && MeetsCacheInOrder(b, o)
  {
    hide Cache.Wf, Find, AddUsers, StartReading, StartRelay, SameEnds;
    var hit := Find(c, hash(heading)).1;
    StartKeepsEnds(b, heading, parsed, if hit.Some? then hit.value else 0);
  }

  lemma RequestKeepsEnds(hash: string -> int, b: Buf, c: Cache)
    requires Wf(b, c) && b.statusClient.WriteRequestHeading?
    ensures var o := OnRequestHeading(hash, b, c); SameEnds(b, o.b) && MeetsCacheInOrder(b, o)
  {
    hide Cache.Wf, FindEndHeading, ParsingHeading, OnParsedRequest;
    var end := FindEndHeading(b.buf);
    if end.Some? {
      var heading := b.buf[..end.value];
      var parsed := ParsingHeading(heading);
      if parsed.Some? { ParsedKeepsEnds(hash, b, c, heading, parsed.value); }
    }
  }

  lemma ResponseKeepsEnds(hash: string -> int, b: Buf, c: Cache)
    requires Wf(b, c) && !b.isDataGetCash
    ensures var r := OnResponseHeading(hash, b, c).b;
      && SameEnds(b, r) && r.isDataGetCash == b.isDataGetCash
      && r.isReadyConnectHttpServer == b.isReadyConnectHttpServer
  {
    hide Cache.Wf, FindEndHeading, ParsingResponseHeading, OpenElement, MarkEnd;
  }

  lemma BodyKeepsEnds(b: Buf, c: Cache, chunk: string)
    requires Wf(b, c)
    ensures var r := OnResponseBody(b, c, chunk).b;
      && SameEnds(b, r) && r.isDataGetCash == b.isDataGetCash
      && r.isReadyConnectHttpServer == b.isReadyConnectHttpServer
  {
    hide Cache.Wf, MarkEnd, Append, FindEndBody;
  }

  /** What a chunk leaves alone. Only a parsed heading asks for a connection to the origin. */
  lemma ReadKeepsEnds(hash: string -> int, b: Buf, c: Cache, chunk: string)
    requires Wf(b, c)
    ensures var o := ReadFromSocket(hash, b, c, chunk);
      var r := o.b;
      && SameEnds(b, r) && MeetsCacheInOrder(b, o)
      && (r.isReadyConnectHttpServer && !b.isReadyConnectHttpServer ==> b.statusClient.WriteRequestHeading?)
  {
    hide Cache.Wf, OnRequestHeading, OnResponseHeading, OnResponseBody;
    var b1 := Receive(b, chunk);
    if b.statusClient.WriteRequestHeading? { RequestKeepsEnds(hash, b1, c); }
    else if b.statusHttpServer.WriteResponseHeading? && !b.statusClient.WriteRequestBody? {
      ResponseKeepsEnds(hash, b1, c);
    } else { BodyKeepsEnds(b1, c, chunk); }
  }

  lemma UserReadKeepsWf(hash: string -> int, k: Conn, c: Cache, chunk: string, connected: bool)
    requires Wf(k.b, c)
    ensures var (k1, c1) := UserRead(hash, k, c, chunk, connected);
      k1.user ==> Wf(k1.b, c1)
  {
    hide Cache.Wf, ReadFromSocket;
  }

  lemma UserGoes(k: Conn, c: Cache)
    requires Wf(k.b, c)
    ensures !DeleteUser(k, c).0.user && DeleteUser(k, c).0.reader == k.reader
  {
    hide Wf, LeftByOrigin, LeftByReader;
  }

  lemma RulesKeepReader(k: Conn, c: Cache, writable: Option<int>)
    requires Wf(k.b, c)
    ensures UserRules(k, c, writable).0.reader == k.reader
  {
    hide Wf, DeleteUser, SendBuf, ProofSend, RefreshReady, UserMustClose;
    UserGoes(k, c);
    if writable.Some? && UserMayDrain(k, c) {
      DrainKeepsWf(k.b, c);
      UserGoes(DrainToUser(k, c, Taken(writable.value)), c);
    }
  }

  lemma ServerReadKeepsWf(hash: string -> int, k: Conn, c: Cache, chunk: string, connected: bool)
    requires Wf(k.b, c)
    ensures var (k1, c1) := ServerRead(hash, k, c, chunk, connected);
      k1.server ==> Wf(k1.b, c1)
  {
    hide Cache.Wf, ReadFromSocket;
  }

  lemma DrainKeepsWf(b: Buf, c: Cache)
    requires Wf(b, c)
    ensures Wf(ProofSend(RefreshReady(b, c), c, SendBuf(b, c, "")), c)
  {
    hide Cache.Wf;
  }

  // ----- A pass is a sequence of actions -----

  /** The state after some actions, provided each of them is possible in its turn. */
  function Perform(hash: string -> int, s: Sys, actions: seq<Action>): Option<Sys>
    decreases |actions|
  {
    hide Possible, Apply;
    if actions == [] then Some(s)
    else if Possible(s, actions[0]) then Perform(hash, Apply(hash, s, actions[0]), actions[1..])
    else None
  }

  /** Whether they are also orderly. */
  predicate InOrder(hash: string -> int, s: Sys, actions: seq<Action>)
    decreases |actions|
  {
    hide Possible, Orderly, Apply;
    actions == []
    || (Possible(s, actions[0]) && Orderly(hash, s, actions[0])
        && InOrder(hash, Apply(hash, s, actions[0]), actions[1..]))
  }

  /** The actions lead connection `i` and the cache to `k` and `c`, and are orderly exactly if `good`. */
  ghost predicate Leads(hash: string -> int, s: Sys, i: nat, actions: seq<Action>, k: Conn, c: Cache, good: bool) {
    var p := Perform(hash, s, actions);
    && |actions| <= 2 && i < |s.conns|
    && p.Some? && p.value.conns == s.conns[i := k] && p.value.cache == c
    && (InOrder(hash, s, actions) <==> good)
  }

  lemma PerformNone(hash: string -> int, s: Sys, i: nat)
    requires i < |s.conns|
    ensures Leads(hash, s, i, [], s.conns[i], s.cache, true)
  {
  }

  lemma PerformOne(hash: string -> int, s: Sys, a: Action)
    requires !a.Accept? && a.i < |s.conns| && Wf(s.conns[a.i].b, s.cache) && PossibleAt(s.conns[a.i], s.cache, a)
    ensures var (k, c) := ApplyAt(hash, s.conns[a.i], s.cache, a);
      Leads(hash, s, a.i, [a], k, c, InTurn(hash, s.conns[a.i], s.cache, a))
  {
    hide Wf, PossibleAt, ApplyAt, InTurn;
    assert [a][1..] == [];
    assert Possible(s, a);
    var s1 := Apply(hash, s, a);
    assert InOrder(hash, s1, []) && Perform(hash, s1, []) == Some(s1);
    assert InOrder(hash, s, [a]) <==> Orderly(hash, s, a) && InOrder(hash, s1, [a][1..]);
  }

  lemma PerformTwo(hash: string -> int, s: Sys, a: Action, b: Action)
    requires !a.Accept? && a.i < |s.conns| && Wf(s.conns[a.i].b, s.cache) && PossibleAt(s.conns[a.i], s.cache, a)
    requires var (k, c) := ApplyAt(hash, s.conns[a.i], s.cache, a);
      !b.Accept? && b.i == a.i && Wf(k.b, c) && PossibleAt(k, c, b) && InTurn(hash, k, c, b)
    ensures var (k, c) := ApplyAt(hash, s.conns[a.i], s.cache, a);
      var (k', c') := ApplyAt(hash, k, c, b);
      Leads(hash, s, a.i, [a, b], k', c', InTurn(hash, s.conns[a.i], s.cache, a))
  {
    hide Wf, PossibleAt, ApplyAt, InTurn;
    var s1 := Apply(hash, s, a);
    PerformOne(hash, s1, b);
    assert [a, b][1..] == [b];
    var (k1, c1) := ApplyAt(hash, s.conns[a.i], s.cache, a);
    var k2 := ApplyAt(hash, k1, c1, b).0;
    assert s1.conns[a.i := k2] == s.conns[a.i := k2];
  }

  /** Whether the chunk of an event, if it has one, comes in the user's turn. */
  predicate UserInTurn(hash: string -> int, k: Conn, c: Cache, e: Event)
    requires Wf(k.b, c)
  {
    HasChunk(e) ==> InTurn(hash, k, c, UserChunk(0, e.chunk, e.connected))
  }

  predicate OriginInTurn(hash: string -> int, k: Conn, c: Cache, e: Event)
    requires Wf(k.b, c)
  {
    HasChunk(e) ==> InTurn(hash, k, c, ServerChunk(0, e.chunk, e.connected))
  }

  /** Whatever the user sends and when, each decision of the handler in a pass over the user's endpoint
      is an action that is possible in the transition system at that moment, and the pass is orderly
      exactly if its chunk comes in turn; so what is proved of histories is proved of the handler. */
  lemma ServeUserActs(hash: string -> int, s: Sys, i: nat, e: Event) returns (actions: seq<Action>)
    requires i < |s.conns| && Wf(s.conns[i].b, s.cache)
    requires s.conns[i].user && s.conns[i].reader.NoReader? && IsRead(e)
    ensures var (k, c) := ServeUser(hash, s.conns[i], s.cache, e);
      Leads(hash, s, i, actions, k, c, UserInTurn(hash, s.conns[i], s.cache, e))
  {
    hide Wf, UserMustClose, DeleteUser, UserRead, RefreshReady, DrainToUser, LookAt, Leads;
    var k, c := s.conns[i], s.cache;
    var closes, looks := CloseUser(i), Look(i);
    if HasChunk(e) || (e.Writable? && UserMayDrain(k, c) && !UserMustClose(k.b, c)) {
      actions := UserActs(hash, s, i, e);
    } else if e.HungUp? || e.Received? || (!e.ReadFailed? && UserMustClose(k.b, c)) {
      actions := [closes];
      PerformOne(hash, s, closes);
    } else if !e.ReadFailed? && (k.b.statusHttpServer.EndWork? || e.Writable?) {
      actions := [looks];
      PerformOne(hash, s, looks);
    } else {
      actions := [];
      PerformNone(hash, s, i);
    }
  }

  lemma UserActs(hash: string -> int, s: Sys, i: nat, e: Event) returns (actions: seq<Action>)
    requires i < |s.conns| && Wf(s.conns[i].b, s.cache)
    requires s.conns[i].user && s.conns[i].reader.NoReader? && IsRead(e)
    requires var k, c := s.conns[i], s.cache;
      HasChunk(e) || (e.Writable? && UserMayDrain(k, c) && !UserMustClose(k.b, c))
    ensures var (k, c) := ServeUser(hash, s.conns[i], s.cache, e);
      Leads(hash, s, i, actions, k, c, UserInTurn(hash, s.conns[i], s.cache, e))
  {
    hide Wf, UserMustClose, DeleteUser, UserRead, RefreshReady, DrainToUser, LookAt, Leads, ParsesInVain;
    var k, c := s.conns[i], s.cache;
    var closes, looks := CloseUser(i), Look(i);
    var a := if HasChunk(e) then UserChunk(i, e.chunk, e.connected) else DrainUser(i, Taken(e.outcome));
    var (k1, c1) := ApplyAt(hash, k, c, a);
    if HasChunk(e) {
      UserReadKeepsWf(hash, k, c, e.chunk, e.connected);
      UserReadKeepsReader(hash, k, c, e.chunk, e.connected);
    } else {
      DrainKeepsWf(k.b, c);
      DrainKeepsEnds(k, c, Taken(e.outcome));
    }
    if ServeUser(hash, k, c, e) == (k1, c1) {
      actions := [a];
      PerformOne(hash, s, a);
    } else if ServeUser(hash, k, c, e) == (LookAt(k1, c1), c1) {
      actions := [a, looks];
      PerformTwo(hash, s, a, looks);
    } else {
      actions := [a, closes];
      PerformTwo(hash, s, a, closes);
    }
  }

  lemma UserReadKeepsReader(hash: string -> int, k: Conn, c: Cache, chunk: string, connected: bool)
    requires Wf(k.b, c)
    ensures var k1 := UserRead(hash, k, c, chunk, connected).0;
      k1.reader == k.reader || k1.reader.TestOrigin?
  {
    hide Wf, ReadFromSocket;
  }

  /** A pass with a chunk is that chunk and then, unless the loop ends, the rules. */
  lemma ServeUserChunk(hash: string -> int, k: Conn, c: Cache, chunk: string, connected: bool)
    requires Wf(k.b, c) && k.reader.NoReader? && chunk != ""
    ensures var e := Received(chunk, connected);
      var (k1, c1) := UserRead(hash, k, c, chunk, connected);
      var done := k1.reader.TestOrigin? || !k1.user;
      && (EndsLoop(hash, k, c, e) <==> done)
      && if done then ServeUser(hash, k, c, e) == (k1, c1)
         else
           Wf(k1.b, c1) && ServeUser(hash, k, c, e) == UserRules(k1, c1, None)
           && k1.(reader := NoReader) == k1
           && UserRules(k1, c1, None).0.(reader := NoReader) == UserRules(k1, c1, None).0
  {
    hide Wf, UserRules, UserRead;
    UserReadKeepsWf(hash, k, c, chunk, connected);
    UserReadKeepsReader(hash, k, c, chunk, connected);
    var (k1, c1) := UserRead(hash, k, c, chunk, connected);
    if !k1.reader.TestOrigin? && k1.user { RulesKeepReader(k1, c1, None); }
  }

  lemma DrainKeepsEnds(k: Conn, c: Cache, taken: nat)
    requires Wf(k.b, c)
    ensures var k1 := DrainToUser(k, c, taken); k1.user == k.user && k1.reader == k.reader && Wf(k1.b, c)
  {
    DrainKeepsWf(k.b, c);
    hide Wf, SendBuf, ProofSend, RefreshReady;
  }

  /** The same for the origin's endpoint, whatever the origin sends and when. */
  lemma ServeOriginActs(hash: string -> int, s: Sys, i: nat, e: Event) returns (actions: seq<Action>)
    requires i < |s.conns| && Wf(s.conns[i].b, s.cache)
    requires s.conns[i].server && IsRead(e)
    ensures var (k, c) := ServeOrigin(hash, s.conns[i], s.cache, e);
      Leads(hash, s, i, actions, k, c, OriginInTurn(hash, s.conns[i], s.cache, e))
  {
    hide Wf, ServerMustClose, DeleteServer, RefreshReady, DrainToServer, LookAt, ServerRead, Leads;
    var k, c := s.conns[i], s.cache;
    var closes, looks := CloseServer(i), Look(i);
    if HasChunk(e) {
      var a := ServerChunk(i, e.chunk, e.connected);
      var (k1, c1) := ServerRead(hash, k, c, e.chunk, e.connected);
      ServerReadKeepsWf(hash, k, c, e.chunk, e.connected);
      if k1.server && ServerMustClose(k1.b) {
        actions := [a, closes];
        PerformTwo(hash, s, a, closes);
      } else {
        actions := [a];
        PerformOne(hash, s, a);
      }
    } else if e.HungUp? || e.Received? || (!e.ReadFailed? && ServerMustClose(k.b)) {
      actions := [closes];
      PerformOne(hash, s, closes);
    } else if e.Writable? && ServerMayDrain(k, c) {
      actions := [DrainServer(i, Taken(e.outcome))];
      PerformOne(hash, s, DrainServer(i, Taken(e.outcome)));
    } else if e.Writable? {
      actions := [looks];
      PerformOne(hash, s, looks);
    } else {
      actions := [];
      PerformNone(hash, s, i);
    }
  }

  /** Performing actions prolongs a history. */
  lemma {:induction false} PerformProlongsHistory(hash: string -> int, run: seq<Sys>, before: seq<Action>,
                                                  actions: seq<Action>)
    returns (longer: seq<Sys>)
    requires IsHistory(hash, run, before) && Perform(hash, run[|run| - 1], actions).Some?
    ensures IsHistory(hash, longer, before + actions) && run <= longer
    ensures longer[|longer| - 1] == Perform(hash, run[|run| - 1], actions).value
    decreases |actions|
  {
    hide Possible, Apply;
    if actions == [] {
      longer := run;
      assert before + actions == before;
    } else {
      var s := run[|run| - 1];
      var next := run + [Apply(hash, s, actions[0])];
      var soFar := before + [actions[0]];
      forall j | 0 <= j < |soFar|
        ensures Possible(next[j], soFar[j]) && next[j + 1] == Apply(hash, next[j], soFar[j])
      {
        if j < |before| { assert Possible(run[j], before[j]) && run[j + 1] == Apply(hash, run[j], before[j]); }
      }
      longer := PerformProlongsHistory(hash, next, soFar, actions[1..]);
      assert soFar + actions[1..] == before + actions;
    }
  }
}
