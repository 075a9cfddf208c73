/** Whose response a reader gets, in every history (lab32v2/buffer/BufferImpl.cpp:32-39, 72-84): the
    element it reads was cached for a request with the hash of its own. */
module Headings {
  import opened Wrappers
  import opened Parser
  import opened CacheSpec
  import opened BufferSpec
  import opened ProxySystem
  import opened ProxyInvariant
  import opened ProxySteps
  import opened ProxyRoles
  import opened ProxyHistories

  /** A reader's element has the hash of the reader's request heading, a writer's element the writer's
      heading itself; and the writer's request is a GET whose response announces its length. */
  ghost predicate Names(hash: string -> int, b: Buf, store: seq<Elem>) {
    (b.isDataGetCash || b.isAddDataToCash ==>
       && b.cashElement.Some? && b.cashElement.value < |store|
       && (b.isDataGetCash ==> store[b.cashElement.value].hash == hash(b.requestHeading))
       && (b.isAddDataToCash ==>
             && store[b.cashElement.value].heading == b.requestHeading
             && b.isHaveContentLengthResponse
             && b.parseResult.Some? && b.parseResult.value.kind.GetRequest?))
  }

  predicate SameName(b: Buf, r: Buf) {
    && r.isDataGetCash == b.isDataGetCash && r.isAddDataToCash == b.isAddDataToCash
    && r.cashElement == b.cashElement && r.requestHeading == b.requestHeading
    && r.isHaveContentLengthResponse == b.isHaveContentLengthResponse && r.parseResult == b.parseResult
  }

  ghost predicate SameNames(store: seq<Elem>, store': seq<Elem>) {
    |store| <= |store'| &&
    forall id | 0 <= id < |store| :: store'[id].heading == store[id].heading && store'[id].hash == store[id].hash
  }

  lemma NamesStay(hash: string -> int, b: Buf, store: seq<Elem>, r: Buf, store': seq<Elem>)
    requires Names(hash, b, store) && SameName(b, r) && SameNames(store, store')
    ensures Names(hash, r, store')
  {
  }

  lemma EffectKeepsNames(k: Conn, store: seq<Elem>, k': Conn, store': seq<Elem>)
    requires Effect(k, store, k', store')
    ensures SameNames(store, store')
  {
    hide SameResponse, Spared, IsReaderOf;
  }

  // ----- What a chunk does to them -----

  lemma RequestNames(hash: string -> int, b: Buf, c: Cache)
    requires Wf(b, c) && b.statusClient.WriteRequestHeading? && !b.isDataGetCash && !b.isAddDataToCash
    ensures var o := OnRequestHeading(hash, b, c); Names(hash, o.b, o.c.store)
  {
    hide Cache.Wf, FindEndHeading, ParsingHeading, OnParsedRequest;
    var end := FindEndHeading(b.buf);
    if end.Some? {
      var heading := b.buf[..end.value];
      var parsed := ParsingHeading(heading);
      if parsed.Some? { ParsedNames(hash, b, c, heading, parsed.value); }
    }
  }

  lemma ParsedNames(hash: string -> int, b: Buf, c: Cache, heading: string, parsed: ParseResult)
    requires Wf(b, c) && b.statusClient.WriteRequestHeading? && !b.isDataGetCash && !b.isAddDataToCash
    ensures var o := OnParsedRequest(hash, b, c, heading, parsed); Names(hash, o.b, o.c.store)
  {
    hide Cache.Wf;
    var h := hash(heading);
    var p := Scan(c, h, 0);
    if p < |c.list| { assert Find(c, h).0.store[c.list[p]].hash == h; }
  }

  lemma ResponseNames(hash: string -> int, b: Buf, c: Cache)
    requires Wf(b, c) && !b.isDataGetCash && !b.isAddDataToCash && CacheInv(c) && HashesAgree(hash, c.store)
    ensures var o := OnResponseHeading(hash, b, c); Names(hash, o.b, o.c.store)
  {
    hide Cache.Wf, CacheInv, HashesAgree, FindEndHeading, ParsingResponseHeading, OpenElement, OnlyEvicted;
    var end := FindEndHeading(b.buf);
    if end.Some? {
      var head := b.buf[..end.value];
      var response := ParsingResponseHeading(head);
      OpenKeeps(hash, b, c, head, response);
      var (c1, offer) := OpenElement(hash, b, c, head, response);
      var b1 := AfterHeading(b, end.value, response, offer);
      HeadingIsNamed(b, end.value, response, offer);
      MarkedNames(hash, b1, c1);
    }
  }

  lemma HeadingIsNamed(b: Buf, length: nat, response: ParseResult, offer: Option<Option<nat>>)
    requires length <= |b.buf|
    ensures var r := AfterHeading(b, length, response, offer);
      && r.requestHeading == b.requestHeading && r.parseResult == b.parseResult
      && r.isHaveContentLengthResponse == response.haveContentLength
  {
    hide FindEndBody;
  }

  lemma MarkedNames(hash: string -> int, b: Buf, c: Cache)
    requires Wf(b, c) && Names(hash, b, c.store)
    ensures Names(hash, b, MarkEnd(b, c).store)
  {
    hide Cache.Wf;
  }

  lemma BodyNames(b: Buf, length: nat)
    ensures SameName(b, AfterBody(b, length))
  {
    hide FindEndBody;
  }

  /** Only headings name anything. */
  lemma OtherChunkNames(hash: string -> int, b: Buf, c: Cache, chunk: string)
    requires Wf(b, c) && !b.statusClient.WriteRequestHeading?
    requires b.statusHttpServer.WriteResponseHeading? ==> b.statusClient.WriteRequestBody?
    ensures SameName(b, ReadFromSocket(hash, b, c, chunk).b)
  {
    hide Cache.Wf, MarkEnd, AfterBody, Append;
    BodyNames(Receive(b, chunk), |chunk|);
  }

  lemma ReadNames(hash: string -> int, k: Conn, c: Cache, chunk: string)
    requires c.Wf() && Role(k, c.store) && CacheInv(c) && HashesAgree(hash, c.store) && Names(hash, k.b, c.store)
    ensures Wf(k.b, c)
    ensures var o := ReadFromSocket(hash, k.b, c, chunk); Names(hash, o.b, o.c.store)
  {
    hide Cache.Wf, CacheInv, HashesAgree, OnRequestHeading, OnResponseHeading, OnResponseBody, Names, Effect;
    ChunkDone(hash, k, c, chunk);
    var b1 := Receive(k.b, chunk);
    if k.b.statusClient.WriteRequestHeading? {
      RequestNames(hash, b1, c);
    } else if k.b.statusHttpServer.WriteResponseHeading? && !k.b.statusClient.WriteRequestBody? {
      ResponseNames(hash, b1, c);
    } else {
      var o := ReadFromSocket(hash, k.b, c, chunk);
      OtherChunkNames(hash, k.b, c, chunk);
      hide ReadFromSocket, Role;
      EffectKeepsNames(k, c.store, k.(b := o.b.(isReadyConnectHttpServer := false)), o.c.store);
      NamesStay(hash, k.b, c.store, o.b, o.c.store);
    }
  }

  // ----- What any action does to them -----

  lemma UserReadNames(hash: string -> int, k: Conn, c: Cache, chunk: string, connected: bool)
    requires c.Wf() && Role(k, c.store) && CacheInv(c) && HashesAgree(hash, c.store) && Names(hash, k.b, c.store)
    ensures Wf(k.b, c)
    ensures var (k', c') := UserRead(hash, k, c, chunk, connected); Names(hash, k'.b, c'.store)
  {
    hide Wf, CacheInv, HashesAgree, ReadFromSocket, Role, DeleteUser, Names, SameName, Cache.Wf;
    ReadNames(hash, k, c, chunk);
    var o := ReadFromSocket(hash, k.b, c, chunk);
    var k1 := k.(b := o.b.(isReadyConnectHttpServer := false), reqIn := k.reqIn + chunk);
    Cleared(o.b, o.c);
    ClearedNames(hash, o.b, o.c.store);
    if o.b.isReadyConnectHttpServer && !connected { TeardownNames(hash, k1, o.c); }
  }

  lemma ClearedNames(hash: string -> int, b: Buf, store: seq<Elem>)
    requires Names(hash, b, store)
    ensures var b1 := b.(isReadyConnectHttpServer := false);
      Names(hash, b1, store) && Names(hash, b1.(isServerConnect := true), store)
  {
  }

  lemma ServerReadLeaves(hash: string -> int, k: Conn, c: Cache, chunk: string, connected: bool)
    requires Wf(k.b, c)
    ensures var o := ReadFromSocket(hash, k.b, c, chunk);
      var (k', c') := ServerRead(hash, k, c, chunk, connected);
      var b2 := o.b.(isReadyConnectHttpServer := false);
      && Wf(b2, o.c)
      && if !o.b.isReadyConnectHttpServer then k'.b == o.b && c' == o.c
         else if connected then k'.b == b2.(isServerConnect := true) && c' == o.c
         else k'.b == b2.(statusHttpServer := EndWork, isServerConnect := false) && c' == LeftByOrigin(b2, o.c)
  {
    hide Wf, ReadFromSocket, LeftByOrigin, Cache.Wf;
    Cleared(ReadFromSocket(hash, k.b, c, chunk).b, ReadFromSocket(hash, k.b, c, chunk).c);
  }

  lemma ServerReadNames(hash: string -> int, k: Conn, c: Cache, chunk: string, connected: bool)
    requires c.Wf() && Role(k, c.store) && CacheInv(c) && HashesAgree(hash, c.store) && Names(hash, k.b, c.store)
    ensures Wf(k.b, c)
    ensures var (k', c') := ServerRead(hash, k, c, chunk, connected); Names(hash, k'.b, c'.store)
  {
    hide Wf, CacheInv, HashesAgree, ReadFromSocket, Role, ServerRead, Names, Cache.Wf;
    ReadNames(hash, k, c, chunk);
    ServerReadLeaves(hash, k, c, chunk, connected);
    var o := ReadFromSocket(hash, k.b, c, chunk);
    ClearedNames(hash, o.b, o.c.store);
    LeavingNames(hash, o.b.(isReadyConnectHttpServer := false), o.c);
  }

  lemma LeavingNames(hash: string -> int, b: Buf, c: Cache)
    requires Wf(b, c) && Names(hash, b, c.store)
    ensures Names(hash, b.(statusHttpServer := EndWork, isServerConnect := false), LeftByOrigin(b, c).store)
  {
    hide Cache.Wf;
  }

  lemma TeardownNames(hash: string -> int, k: Conn, c: Cache)
    requires Wf(k.b, c) && Names(hash, k.b, c.store)
    ensures var (k', c') := DeleteUser(k, c); SameName(k.b, k'.b) && Names(hash, k'.b, c'.store)
    ensures var (k', c') := DeleteServer(k, c); SameName(k.b, k'.b) && Names(hash, k'.b, c'.store)
  {
    hide Cache.Wf;
  }

  lemma DrainNames(b: Buf, c: Cache)
    requires Wf(b, c)
    ensures Wf(RefreshReady(b, c), c) && SameName(b, RefreshReady(b, c))
    ensures !b.isDataGetCash ==> |SendBuf(b, c, "")| <= |b.buf|
    ensures SameName(b, ProofSend(RefreshReady(b, c), c, SendBuf(b, c, "")))
  {
    hide Cache.Wf;
  }

  lemma CountingNames(b: Buf, c: Cache, sent: string)
    requires Wf(b, c) && b.isDataGetCash
    ensures SameName(b, ProofSend(b, c, sent))
  {
    hide Cache.Wf;
  }

  lemma ReaderNames(k: Conn, c: Cache, ok: bool, taken: nat)
    requires Wf(k.b, c) && k.b.isDataGetCash
    ensures SameName(k.b, ReaderStep(k, c, ok, taken).b)
  {
    DrainNames(k.b, c);
    hide Wf, SendBuf, Written, RefreshReady, ProofSend, SameName, NextPc;
    if k.reader.SendProof? {
      CountingNames(k.b, c, k.reader.sent);
    } else {
      SameNameAsItself(k.b);
    }
  }

  lemma SameNameAsItself(b: Buf)
    ensures SameName(b, b)
  {
  }

  lemma DrainActionNames(hash: string -> int, k: Conn, c: Cache, taken: nat)
    requires Wf(k.b, c) && Names(hash, k.b, c.store)
    ensures Names(hash, DrainToServer(k, c, taken).b, c.store) && Names(hash, DrainToUser(k, c, taken).b, c.store)
    ensures Names(hash, LookAt(k, c).b, c.store)
  {
    DrainNames(k.b, c);
    hide Wf, SendBuf, Written, RefreshReady, ProofSend, SameName, Names;
    NamesAreNames(hash, k.b, DrainToServer(k, c, taken).b, c.store);
    NamesAreNames(hash, k.b, LookAt(k, c).b, c.store);
  }

  lemma ActionNames(hash: string -> int, k: Conn, c: Cache, a: Action)
    requires c.Wf() && Role(k, c.store) && CacheInv(c) && HashesAgree(hash, c.store) && Names(hash, k.b, c.store)
    requires Wf(k.b, c) && !a.Accept? && PossibleAt(k, c, a)
    ensures var (k', c') := ApplyAt(hash, k, c, a); Names(hash, k'.b, c'.store)
  {
    hide Cache.Wf, Wf, CacheInv, HashesAgree, Role, UserRead, ServerRead, DeleteUser, DeleteServer, DrainToServer,
      DrainToUser, LookAt, ReaderStep, Names, ServerMayDrain, UserMayDrain;
    match a {
      case UserChunk(_, chunk, connected) => UserReadNames(hash, k, c, chunk, connected);
      case ServerChunk(_, chunk, connected) => ServerReadNames(hash, k, c, chunk, connected);
      case CloseServer(_) => TeardownNames(hash, k, c);
      case CloseUser(_) => TeardownNames(hash, k, c);
      case ReaderExit(_) => TeardownNames(hash, k, c);
      case DrainServer(_, taken) => DrainActionNames(hash, k, c, taken);
      case DrainUser(_, taken) => DrainActionNames(hash, k, c, taken);
      case Look(_) => DrainActionNames(hash, k, c, 0);
      case ReadCash(_, ok, taken) =>
        ReaderNames(k, c, ok, taken);
        NamesAreNames(hash, k.b, ReaderStep(k, c, ok, taken).b, c.store);
    }
  }

  lemma NamesAreNames(hash: string -> int, b: Buf, r: Buf, store: seq<Elem>)
    requires Names(hash, b, store) && SameName(b, r)
    ensures Names(hash, r, store)
  {
  }

  // ----- Histories -----

  lemma StepNames(hash: string -> int, s: Sys, a: Action, i: nat)
    requires BaseInv(hash, s) && Possible(s, a) && i < |s.conns| && Names(hash, s.conns[i].b, s.cache.store)
    ensures var s' := Apply(hash, s, a); i < |s'.conns| && Names(hash, s'.conns[i].b, s'.cache.store)
  {
    hide CacheInv, RolesInv, HashesAgree, CountsAgree, WritersAgree, ApplyAt, PossibleAt, Wf, Effect, Role, Names;
    if !a.Accept? {
      ActionOnSystem(hash, s, a);
      var k, c := s.conns[a.i], s.cache;
      var (k', c') := ApplyAt(hash, k, c, a);
      if a.i == i {
        PointersAreGood(hash, s, i);
        CacheHasNames(c);
        ActionNames(hash, k, c, a);
      } else {
        EffectKeepsNames(k, c.store, k', c'.store);
        NamesStay(hash, s.conns[i].b, c.store, s.conns[i].b, c'.store);
      }
    }
  }

  lemma CacheHasNames(c: Cache)
    requires CacheInv(c)
    ensures c.Wf()
  {
    hide Cache.Wf;
  }

  lemma {:induction false} HistoryNames(hash: string -> int, run: seq<Sys>, actions: seq<Action>, n: nat, i: nat)
    requires IsHistory(hash, run, actions) && n < |run| && i < |run[n].conns|
    ensures Names(hash, run[n].conns[i].b, run[n].cache.store)
  {
    hide Possible, Apply, BaseInv, Names;
    if n > 0 {
      var s, a := run[n - 1], actions[n - 1];
      assert run[n - 1 + 1] == Apply(hash, s, a);
      HistoryBase(hash, run, actions, n - 1);
      if i < |s.conns| {
        HistoryNames(hash, run, actions, n - 1, i);
        StepNames(hash, s, a, i);
      } else {
        NewConnIsFresh(hash, s, a, i);
        AcceptedNamesNothing(hash, run[n].cache.store);
      }
    }
  }

  lemma AcceptedNamesNothing(hash: string -> int, store: seq<Elem>)
    ensures Names(hash, ACCEPTED.b, store)
  {
  }

  /** In every history, whatever anybody sends: only the response to a GET that announces its length is
      ever being cached, so the two branches that report a possible error are never reached. */
  lemma OnlyGetsAreCached(hash: string -> int, run: seq<Sys>, actions: seq<Action>, n: nat, i: nat)
    requires IsHistory(hash, run, actions) && n < |run| && i < |run[n].conns| && run[n].conns[i].b.isAddDataToCash
    ensures var b := run[n].conns[i].b;
      b.isHaveContentLengthResponse && b.parseResult.Some? && b.parseResult.value.kind.GetRequest?
  {
    HistoryNames(hash, run, actions, n, i);
    hide IsHistory;
  }

  /** In every history, whatever anybody sends: a reader's element was cached by exactly one connection,
      under that connection's request heading, and for a hash that does not collide this is the reader's
      request heading, too. */
  lemma HitsTheSameRequest(hash: string -> int, run: seq<Sys>, actions: seq<Action>, n: nat, i: nat)
    requires IsHistory(hash, run, actions) && n < |run| && i < |run[n].conns| && run[n].conns[i].b.isDataGetCash
    ensures var s, k := run[n], run[n].conns[i];
      && k.b.cashElement.Some? && k.b.cashElement.value < |s.cache.store| && k.b.cashElement.value < |s.writers|
      && var id := k.b.cashElement.value;
      && s.writers[id] < |s.conns|
      && (forall j | 0 <= j < |s.conns| :: WritesTo(s.conns[j], id) <==> j == s.writers[id])
      && s.cache.store[id].heading == s.conns[s.writers[id]].b.requestHeading
      && hash(k.b.requestHeading) == hash(s.conns[s.writers[id]].b.requestHeading)
      && ((forall a, b :: hash(a) == hash(b) ==> a == b) ==>
            k.b.requestHeading == s.conns[s.writers[id]].b.requestHeading)
  {
    HistoryNames(hash, run, actions, n, i);
    HistoryBase(hash, run, actions, n);
    var s, id := run[n], run[n].conns[i].b.cashElement.value;
    WriterKept(hash, run, actions, n, id);
    HistoryNames(hash, run, actions, n, s.writers[id]);
    hide IsHistory, WriterInTurn, ConnInv, CacheInv, RolesInv, CountsAgree, WritersAgree;
    assert WritesTo(s.conns[s.writers[id]], id);
  }
}
