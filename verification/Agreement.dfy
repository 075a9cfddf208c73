/** When a cached element agrees with the bytes its origin has sent, in every history
    (lab32v2/buffer/BufferImpl.cpp:10-25, 66-135): a chunk that the client sends while the body of its
    cached response arrives is appended to the element like one of the origin's. */
module Agreement {
  import opened Wrappers
  import opened Parser
  import opened CacheSpec
  import opened BufferSpec
  import opened ProxySystem
  import opened ProxyInvariant
  import opened ProxySteps
  import opened ProxyRoles
  import opened ProxyOrder
  import opened ProxyHistories

  /** Whether a chunk of the user's joins the element that its connection is caching, or the bytes with
      which an element will begin. */
  predicate JoinsElement(k: Conn, a: Action) {
    a.UserChunk? &&
    (k.b.statusHttpServer.WriteResponseHeading? || (k.b.isAddDataToCash && k.b.statusHttpServer.WriteResponseBody?))
  }

  /** What a chunk does to a writer's element and to what counts as its response. */
  lemma WriterReads(hash: string -> int, k: Conn, c: Cache, chunk: string, connected: bool)
    requires c.Wf() && Role(k, c.store) && k.b.isAddDataToCash
    ensures Wf(k.b, c)
    ensures var id, inBody := k.b.cashElement.value, k.b.statusHttpServer.WriteResponseBody?;
      var (k', c') := UserRead(hash, k, c, chunk, connected);
      var (k2, c2) := ServerRead(hash, k, c, chunk, connected);
      && |c'.store| == |c2.store| == |c.store|
      && c'.store[id].content == (if inBody then c.store[id].content + chunk else c.store[id].content)
      && c2.store[id].content == (if inBody then c.store[id].content + chunk else c.store[id].content)
      && k'.respIn == k.respIn
      && k2.respIn == (if inBody then k.respIn + chunk else k.respIn)
      && (inBody && k.b.isHaveContentLengthResponse ==>
            && k'.b.lengthBody == k.b.lengthBody - |chunk|
            && (c'.store[id].downloadEnd <==> c.store[id].downloadEnd || k'.b.lengthBody <= 0))
  {
    RoleIsWf(k, c);
    WriterChunk(hash, k, c, chunk);
    hide ReadFromSocket, Role, Wf, Cache.Wf;
  }

  lemma WriterChunk(hash: string -> int, k: Conn, c: Cache, chunk: string)
    requires c.Wf() && Role(k, c.store) && k.b.isAddDataToCash && Wf(k.b, c)
    ensures var id, inBody := k.b.cashElement.value, k.b.statusHttpServer.WriteResponseBody?;
      var o := ReadFromSocket(hash, k.b, c, chunk);
      && |o.c.store| == |c.store| && !o.b.isReadyConnectHttpServer && !o.b.isDataGetCash
      && o.c.store[id].content == (if inBody then c.store[id].content + chunk else c.store[id].content)
      && (inBody && k.b.isHaveContentLengthResponse ==>
            && o.b.lengthBody == k.b.lengthBody - |chunk|
            && (o.c.store[id].downloadEnd <==> c.store[id].downloadEnd || o.b.lengthBody <= 0))
  {
    hide Cache.Wf, OnRequestHeading, OnResponseHeading, FindEndBody;
  }

  lemma TeardownKeepsContent(k: Conn, c: Cache, id: nat)
    requires Wf(k.b, c) && id < |c.store|
    ensures var (k', c') := DeleteUser(k, c);
      |c'.store| == |c.store| && c'.store[id].content == c.store[id].content && k'.respIn == k.respIn
    ensures var (k', c') := DeleteServer(k, c);
      |c'.store| == |c.store| && c'.store[id].content == c.store[id].content && k'.respIn == k.respIn
  {
    hide Cache.Wf;
  }

  /** One action of the writer itself. */
  lemma WriterActs(hash: string -> int, k: Conn, c: Cache, a: Action)
    requires c.Wf() && Role(k, c.store) && k.b.isAddDataToCash && Wf(k.b, c) && !a.Accept? && PossibleAt(k, c, a)
    ensures var id := k.b.cashElement.value;
      var (k', c') := ApplyAt(hash, k, c, a);
      var e, e' := c.store[id], c'.store[id];
      && |c'.store| == |c.store|
      && |e'.content| - |k'.respIn| == |e.content| - |k.respIn| + (if JoinsElement(k, a) then |a.chunk| else 0)
      && (!JoinsElement(k, a) && e.content == k.respIn ==> e'.content == k'.respIn)
  {
    hide Wf, Role, UserRead, ServerRead, DeleteUser, DeleteServer, DrainToServer, DrainToUser, LookAt, ReaderStep,
      Cache.Wf, ServerMayDrain, UserMayDrain;
    WriterHasId(k, c);
    var id := k.b.cashElement.value;
    match a {
      case UserChunk(_, chunk, connected) => WriterReads(hash, k, c, chunk, connected);
      case ServerChunk(_, chunk, connected) => WriterReads(hash, k, c, chunk, connected);
      case CloseServer(_) => TeardownKeepsContent(k, c, id);
      case CloseUser(_) => TeardownKeepsContent(k, c, id);
      case ReaderExit(_) => TeardownKeepsContent(k, c, id);
      case _ => QuietKeepsResponse(hash, k, c, a);
    }
  }

  lemma WriterHasId(k: Conn, c: Cache)
    requires Role(k, c.store) && k.b.isAddDataToCash
    ensures k.b.cashElement.Some? && k.b.cashElement.value < |c.store| && !k.b.isDataGetCash
    ensures !k.b.statusHttpServer.WriteResponseHeading?
  {
  }

  lemma QuietKeepsResponse(hash: string -> int, k: Conn, c: Cache, a: Action)
    requires Wf(k.b, c) && !k.b.isDataGetCash && !a.Accept? && PossibleAt(k, c, a)
    requires a.DrainServer? || a.DrainUser? || a.Look? || a.ReadCash?
    ensures var (k', c') := ApplyAt(hash, k, c, a); c' == c && k'.respIn == k.respIn
  {
    hide Wf, SendBuf, ProofSend, RefreshReady, Written;
  }

  /** One action of anybody, seen from element `id` and its writer. */
  lemma StepAgreement(hash: string -> int, s: Sys, a: Action, id: nat)
    requires BaseInv(hash, s) && Possible(s, a) && id < |s.cache.store|
    ensures id < |s.writers| && s.writers[id] < |s.conns|
    ensures var s', w := Apply(hash, s, a), s.writers[id];
      && id < |s'.cache.store| && id < |s'.writers| && s'.writers[id] == w && w < |s'.conns|
      && var e, e', k, k' := s.cache.store[id], s'.cache.store[id], s.conns[w], s'.conns[w];
      var joins := !a.Accept? && a.i == w && JoinsElement(k, a);
      && |e'.content| - |k'.respIn| == |e.content| - |k.respIn| + (if joins then |a.chunk| else 0)
      && (joins ==> |a.chunk| > 0)
      && (!joins && e.content == k.respIn ==> e'.content == k'.respIn)
  {
    hide CacheInv, RolesInv, HashesAgree, CountsAgree, ApplyAt, PossibleAt, Wf, Effect, Role, Grows, SameResponse;
    var w := s.writers[id];
    if !a.Accept? {
      ActionOnSystem(hash, s, a);
      var (k, c) := ApplyAt(hash, s.conns[a.i], s.cache, a);
      PointersAreGood(hash, s, w);
      if a.i == w {
        CacheIsWf(hash, s);
        WriterActs(hash, s.conns[w], s.cache, a);
        ChunksAreNotEmpty(s.conns[w], s.cache, a);
        WriterEffect(s.conns[w], s.cache.store, k, c.store);
      } else {
        OtherWriterSpared(s, a.i, k, c.store, w);
        SparedResponse(s.cache.store[id], c.store[id]);
      }
    }
  }

  lemma ChunksAreNotEmpty(k: Conn, c: Cache, a: Action)
    requires Wf(k.b, c) && !a.Accept? && PossibleAt(k, c, a)
    ensures a.UserChunk? ==> |a.chunk| > 0
  {
  }

  lemma SparedResponse(e: Elem, e': Elem)
    requires SameResponse(e, e')
    ensures e'.content == e.content
  {
  }

  lemma CacheIsWf(hash: string -> int, s: Sys)
    requires BaseInv(hash, s)
    ensures s.cache.Wf()
  {
    hide RolesInv, HashesAgree, CountsAgree, WritersAgree, Cache.Wf;
  }

  predicate JoinsAt(s: Sys, a: Action, w: nat) {
    !a.Accept? && a.i == w && w < |s.conns| && JoinsElement(s.conns[w], a)
  }

  /** The bytes of the client's that joined the element of connection `w`, or what it was to begin with,
      among the actions from `m` up to `n`. */
  function Foreign(run: seq<Sys>, actions: seq<Action>, m: nat, n: nat, w: nat): nat
    requires m <= n <= |actions| && n <= |run|
  {
    if m == n then 0
    else
      Foreign(run, actions, m, n - 1, w)
      + (if JoinsAt(run[n - 1], actions[n - 1], w) then |actions[n - 1].chunk| else 0)
  }

  lemma {:induction false} AgreementOverTime(hash: string -> int, run: seq<Sys>, actions: seq<Action>, m: nat, n: nat,
                                             id: nat)
    requires IsHistory(hash, run, actions) && m <= n < |run| && id < |run[m].cache.store|
    ensures id < |run[m].writers| && run[m].writers[id] < |run[m].conns|
    ensures var s, s', w := run[m], run[n], run[m].writers[id];
      && id < |s'.cache.store| && id < |s'.writers| && s'.writers[id] == w && w < |s'.conns|
      && |s'.cache.store[id].content| - |s'.conns[w].respIn|
        == |s.cache.store[id].content| - |s.conns[w].respIn| + Foreign(run, actions, m, n, w)
      && (s.cache.store[id].content == s.conns[w].respIn && Foreign(run, actions, m, n, w) == 0 ==>
            s'.cache.store[id].content == s'.conns[w].respIn)
    decreases n - m
  {
    hide Possible, Apply, BaseInv, JoinsElement;
    HistoryBase(hash, run, actions, m);
    WritersInBase(hash, run[m], id);
    if m < n {
      AgreementOverTime(hash, run, actions, m, n - 1, id);
      HistoryBase(hash, run, actions, n - 1);
      assert run[n - 1 + 1] == Apply(hash, run[n - 1], actions[n - 1]);
      StepAgreement(hash, run[n - 1], actions[n - 1], id);
    }
  }

  lemma WritersInBase(hash: string -> int, s: Sys, id: nat)
    requires BaseInv(hash, s) && id < |s.cache.store|
    ensures id < |s.writers| && s.writers[id] < |s.conns|
  {
    hide CacheInv, RolesInv, HashesAgree, CountsAgree;
  }

  /** In every history: an element that agreed with its origin once still does exactly if no chunk of
      its client's has joined it since. */
  lemma AgreesIffNothingJoined(hash: string -> int, run: seq<Sys>, actions: seq<Action>, m: nat, n: nat, id: nat)
    requires IsHistory(hash, run, actions) && m <= n < |run| && id < |run[m].cache.store|
    requires id < |run[m].writers| && run[m].writers[id] < |run[m].conns|
    requires run[m].cache.store[id].content == run[m].conns[run[m].writers[id]].respIn
    ensures var s', w := run[n], run[m].writers[id];
      && id < |s'.cache.store| && id < |s'.writers| && s'.writers[id] == w && w < |s'.conns|
      && (s'.cache.store[id].content == s'.conns[w].respIn <==> Foreign(run, actions, m, n, w) == 0)
  {
    AgreementOverTime(hash, run, actions, m, n, id);
    hide IsHistory, Foreign;
  }

  /** So it is enough that the connection was in turn until its response began to be cached: from then on
      the element holds exactly what its origin has sent as long as its client sends nothing during the
      body, and no longer. */
  lemma AgreesSinceCachedIff(hash: string -> int, run: seq<Sys>, actions: seq<Action>, m: nat, n: nat, id: nat)
    requires IsHistory(hash, run, actions) && m <= n < |run| && id < |run[m].cache.store|
    requires WriterInTurn(hash, run, actions, m, id)
    ensures id < |run[m].writers|
    ensures var s', w := run[n], run[m].writers[id];
      && id < |s'.cache.store| && id < |s'.writers| && s'.writers[id] == w && w < |s'.conns|
      && (s'.cache.store[id].content == s'.conns[w].respIn <==> Foreign(run, actions, m, n, w) == 0)
  {
    hide IsHistory, WriterInTurn, ConnInv, Foreign;
    WriterKept(hash, run, actions, m, id);
    var w := run[m].writers[id];
    WriterHolds(hash, run[m].conns[w], run[m].cache.store);
    AgreesIffNothingJoined(hash, run, actions, m, n, id);
  }

  /** For a caching connection in turn so far: a chunk of its client's ends the agreement exactly if
      the origin's side is in the body of the response, and is counted there as the origin's, so that it
      may even complete the download. */
  lemma LateByteJoinsElement(hash: string -> int, k: Conn, c: Cache, chunk: string, connected: bool)
    requires c.Wf() && Role(k, c.store) && ConnInv(hash, k, c.store) && k.b.isAddDataToCash && k.user && chunk != ""
    ensures Wf(k.b, c)
    ensures var id, inBody := k.b.cashElement.value, k.b.statusHttpServer.WriteResponseBody?;
      var (k', c') := UserRead(hash, k, c, chunk, connected);
      && id < |c'.store|
      && c'.store[id].content == (if inBody then k.respIn + chunk else k.respIn) && k'.respIn == k.respIn
      && (c'.store[id].content == k'.respIn <==> !inBody)
      && (inBody ==> k'.b.lengthBody == k.b.lengthBody - |chunk|)
      && (inBody && k'.b.lengthBody <= 0 ==> c'.store[id].downloadEnd)
      && (inBody ==> !WriterOf(k', c'.store[id]))
  {
    WriterReads(hash, k, c, chunk, connected);
    WriterHolds(hash, k, c.store);
    hide ConnInv, Role, UserRead, ServerRead, Cache.Wf, Wf;
  }

  lemma WriterHolds(hash: string -> int, k: Conn, store: seq<Elem>)
    requires ConnInv(hash, k, store) && k.b.isAddDataToCash
    ensures k.b.cashElement.Some? && k.b.cashElement.value < |store|
    ensures store[k.b.cashElement.value].content == k.respIn && k.b.isHaveContentLengthResponse
  {
    hide InSomePhase, Owned, HasHeading, Heading, Response, ParsingHeading;
  }
}
