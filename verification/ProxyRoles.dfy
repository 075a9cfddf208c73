/** What every action of a connection does, in turn or not: it keeps the cache invariant and the
    connection's role towards the cache, and has a bounded effect on everybody else. */
module ProxyRoles {
  import opened Wrappers
  import opened Parser
  import opened CacheSpec
  import opened BufferSpec
  import opened ProxySystem
  import opened ProxyInvariant
  import opened ProxySteps

  // ----- The cache -----

  lemma ReadKeepsCache(hash: string -> int, b: Buf, c: Cache, chunk: string)
    requires Wf(b, c) && CacheInv(c) && HashesAgree(hash, c.store)
    ensures var o := ReadFromSocket(hash, b, c, chunk); CacheInv(o.c) && HashesAgree(hash, o.c.store)
  {
    hide Cache.Wf, CacheInv, HashesAgree, OnRequestHeading, OnResponseHeading, OnResponseBody;
    var b1 := Receive(b, chunk);
    if b.statusClient.WriteRequestHeading? {
      RequestKeepsCache(hash, b1, c);
    } else if b.statusHttpServer.WriteResponseHeading? && !b.statusClient.WriteRequestBody? {
      HeadingKeepsCache(hash, b1, c);
    } else if b.statusHttpServer.WriteResponseBody? {
      BodyKeepsCache(hash, b1, c, chunk);
    }
  }

  lemma RequestKeepsCache(hash: string -> int, b: Buf, c: Cache)
    requires Wf(b, c) && b.statusClient.WriteRequestHeading? && CacheInv(c) && HashesAgree(hash, c.store)
    ensures var o := OnRequestHeading(hash, b, c); CacheInv(o.c) && HashesAgree(hash, o.c.store)
  {
    hide Cache.Wf, CacheInv, HashesAgree, FindEndHeading, ParsingHeading, Find, AddUsers, StartReading, StartRelay,
      Contains, Grows, SameResponse, Spared;
    var end := FindEndHeading(b.buf);
    if end.Some? {
      var h := hash(b.buf[..end.value]);
      if Contains(c, h) { HitCache(hash, c, h); }
    }
  }

  lemma HeadingKeepsCache(hash: string -> int, b: Buf, c: Cache)
    requires Wf(b, c) && !b.isDataGetCash && CacheInv(c) && HashesAgree(hash, c.store)
    ensures var o := OnResponseHeading(hash, b, c); CacheInv(o.c) && HashesAgree(hash, o.c.store)
  {
    hide Cache.Wf, CacheInv, HashesAgree, FindEndHeading, ParsingResponseHeading, OpenElement, AfterHeading, MarkEnd;
    var end := FindEndHeading(b.buf);
    if end.Some? {
      var head := b.buf[..end.value];
      var response := ParsingResponseHeading(head);
      OpenKeeps(hash, b, c, head, response);
      var (c1, offer) := OpenElement(hash, b, c, head, response);
      MarkEndKeeps(hash, AfterHeading(b, end.value, response, offer), c1);
    }
  }

  lemma BodyKeepsCache(hash: string -> int, b: Buf, c: Cache, chunk: string)
    requires Wf(b, c) && CacheInv(c) && HashesAgree(hash, c.store)
    ensures var o := OnResponseBody(b, c, chunk); CacheInv(o.c) && HashesAgree(hash, o.c.store)
  {
    hide CacheInv, HashesAgree, AfterBody, MarkEnd;
    var c1 := if b.isAddDataToCash then Append(c, b.cashElement.value, chunk) else c;
    if b.isAddDataToCash {
      OneElemChangedKeepsCache(hash, c, b.cashElement.value, c1.store[b.cashElement.value], c1);
    }
    MarkEndKeeps(hash, AfterBody(b, |chunk|), c1);
  }

  lemma LeavingKeepsCache(hash: string -> int, b: Buf, c: Cache)
    requires Wf(b, c) && CacheInv(c) && HashesAgree(hash, c.store)
    ensures CacheInv(LeftByOrigin(b, c)) && HashesAgree(hash, LeftByOrigin(b, c).store)
    ensures CacheInv(LeftByReader(b, c)) && HashesAgree(hash, LeftByReader(b, c).store)
  {
    hide CacheInv, HashesAgree;
    if b.isAddDataToCash {
      var id, c' := b.cashElement.value, LeftByOrigin(b, c);
      OneElemChangedKeepsCache(hash, c, id, c'.store[id], c');
    }
    if b.isDataGetCash {
      var id, c' := b.cashElement.value, LeftByReader(b, c);
      OneElemChangedKeepsCache(hash, c, id, c'.store[id], c');
    }
  }

  lemma TeardownKeepsCache(hash: string -> int, k: Conn, c: Cache)
    requires Wf(k.b, c) && CacheInv(c) && HashesAgree(hash, c.store)
    ensures var c' := DeleteServer(k, c).1; CacheInv(c') && HashesAgree(hash, c'.store)
    ensures var c' := DeleteUser(k, c).1; CacheInv(c') && HashesAgree(hash, c'.store)
  {
    hide CacheInv, HashesAgree, LeftByOrigin, LeftByReader, Cache.Wf;
    LeavingKeepsCache(hash, k.b, c);
    var (k1, c1) := DeletePair(k, c);
    LeavingKeepsCache(hash, k1.b, c1);
  }

  lemma ChunksKeepCache(hash: string -> int, k: Conn, c: Cache, chunk: string, connected: bool)
    requires Wf(k.b, c) && CacheInv(c) && HashesAgree(hash, c.store)
    ensures var c' := UserRead(hash, k, c, chunk, connected).1; CacheInv(c') && HashesAgree(hash, c'.store)
    ensures var c' := ServerRead(hash, k, c, chunk, connected).1; CacheInv(c') && HashesAgree(hash, c'.store)
  {
    hide CacheInv, HashesAgree, ReadFromSocket, DeleteUser, DeleteServer, Wf;
    ReadKeepsCache(hash, k.b, c, chunk);
    var o := ReadFromSocket(hash, k.b, c, chunk);
    Cleared(o.b, o.c);
    var b2 := o.b.(isReadyConnectHttpServer := false);
    var over := k.b.statusHttpServer == EndWork;
    TeardownKeepsCache(hash, k.(b := b2, reqIn := k.reqIn + chunk), o.c);
    TeardownKeepsCache(hash, k.(b := b2, respIn := if over then k.respIn else k.respIn + chunk,
                                late := if over then k.late + chunk else k.late), o.c);
  }

  // ----- What a chunk means for the connection's role -----

  lemma RoleIsWf(k: Conn, c: Cache)
    requires c.Wf() && Role(k, c.store)
    ensures Wf(k.b, c) && HasParsedRequest(k.b)
  {
    hide Cache.Wf;
  }

  /** Roles and effects are about these fields only. */
  predicate SameRole(k: Conn, k': Conn) {
    && k'.user == k.user && k'.b.isDataGetCash == k.b.isDataGetCash
    && k'.b.isAddDataToCash == k.b.isAddDataToCash && k'.b.cashElement == k.b.cashElement
  }

  lemma EffectIsRole(k: Conn, store: seq<Elem>, k1: Conn, k2: Conn, store': seq<Elem>)
    requires Effect(k, store, k1, store') && SameRole(k1, k2)
    ensures Effect(k, store, k2, store')
  {
    hide Grows, SameResponse, Spared;
    assert forall id :: Reads(k2, id) == Reads(k1, id) && WritesTo(k2, id) == WritesTo(k1, id);
  }

  /** The buffer of `k` and the cache after a chunk, before anybody connects. */
  ghost predicate ReadDone(k: Conn, store: seq<Elem>, b: Buf, store': seq<Elem>) {
    var k' := k.(b := b.(isReadyConnectHttpServer := false));
    && Effect(k, store, k', store')
    && Role(k', store')
    && (b.isReadyConnectHttpServer ==>
          store' == store && b.parseResult.Some? && !b.isDataGetCash && !b.isAddDataToCash && k.user)
    && (b.isDataGetCash && !k.b.isDataGetCash ==> b.statusClient.ReadResponse?)
  }

  lemma NothingRead(k: Conn, store: seq<Elem>, b: Buf)
    requires Role(k, store)
    requires b.isDataGetCash == k.b.isDataGetCash && b.isAddDataToCash == k.b.isAddDataToCash
    requires b.cashElement == k.b.cashElement && b.statusClient == k.b.statusClient
    requires b.statusHttpServer == k.b.statusHttpServer && b.parseResult == k.b.parseResult && b.error == k.b.error
    requires !b.isReadyConnectHttpServer
    requires b.isEndSend ==> k.b.isEndSend || k.b.statusClient.WriteRequestBody?
    ensures ReadDone(k, store, b, store)
  {
    NoEffect(k, k.(b := b.(isReadyConnectHttpServer := false)), store);
    hide Effect;
  }

  lemma RequestHeadingDone(hash: string -> int, k: Conn, b: Buf, c: Cache)
    requires c.Wf() && Role(k, c.store) && CacheInv(c) && HashesAgree(hash, c.store)
    requires b == k.b.(buf := b.buf) && b.statusClient.WriteRequestHeading? && Wf(b, c)
    ensures var o := OnRequestHeading(hash, b, c); ReadDone(k, c.store, o.b, o.c.store)
  {
    hide Cache.Wf, CacheInv, HashesAgree, FindEndHeading, ParsingHeading, OnParsedRequest, ReadDone, Effect;
    var end := FindEndHeading(b.buf);
    if end.None? {
      NothingRead(k, c.store, b);
    } else {
      var heading := b.buf[..end.value];
      var parsed := ParsingHeading(heading);
      if parsed.None? {
        RejectDone(k, c.store, b, heading);
      } else {
        ParsedDone(hash, k, b, c, heading, parsed.value);
      }
    }
  }

  lemma RejectDone(k: Conn, store: seq<Elem>, b: Buf, heading: string)
    requires Role(k, store) && b == k.b.(buf := b.buf) && b.statusClient.WriteRequestHeading?
    ensures ReadDone(k, store, Reject(b, heading), store)
  {
    NoEffect(k, k.(b := Reject(b, heading).(isReadyConnectHttpServer := false)), store);
    hide Effect;
  }

  lemma ParsedDone(hash: string -> int, k: Conn, b: Buf, c: Cache, heading: string, parsed: ParseResult)
    requires c.Wf() && Role(k, c.store) && CacheInv(c) && HashesAgree(hash, c.store)
    requires b == k.b.(buf := b.buf) && b.statusClient.WriteRequestHeading? && Wf(b, c)
    ensures var o := OnParsedRequest(hash, b, c, heading, parsed); ReadDone(k, c.store, o.b, o.c.store)
  {
    hide Cache.Wf, CacheInv, HashesAgree, Find, AddUsers, ReadDone, Effect, Contains, Grows, SameResponse, Spared;
    var h := hash(heading);
    if Contains(c, h) {
      HitCache(hash, c, h);
      var (c1, hit) := Find(c, h);
      HitDone(k, b, heading, parsed, hit.value, c.store, AddUsers(c1, hit.value, 1).store);
    } else {
      RelayDone(k, b, heading, parsed, c.store);
    }
  }

  lemma HitDone(k: Conn, b: Buf, heading: string, parsed: ParseResult, id: nat, store: seq<Elem>, store': seq<Elem>)
    requires Role(k, store) && b == k.b.(buf := b.buf) && b.statusClient.WriteRequestHeading?
    requires |store'| == |store| && id < |store|
    requires forall i | 0 <= i < |store| ::
      Grows(store[i], store'[i]) && SameResponse(store[i], store'[i]) && Spared(store[i], store'[i])
      && store'[i].users == store[i].users + (if i == id then 1 else 0)
    ensures ReadDone(k, store, StartReading(b, heading, parsed, id), store')
  {
    var k' := k.(b := StartReading(b, heading, parsed, id).(isReadyConnectHttpServer := false));
    HitEffect(k, k', store, store', id);
    hide Effect, Grows, SameResponse, Spared;
  }

  lemma RelayDone(k: Conn, b: Buf, heading: string, parsed: ParseResult, store: seq<Elem>)
    requires Role(k, store) && b == k.b.(buf := b.buf) && b.statusClient.WriteRequestHeading?
    ensures ReadDone(k, store, StartRelay(b, heading, parsed), store)
  {
    var k' := k.(b := StartRelay(b, heading, parsed).(isReadyConnectHttpServer := false));
    NoEffectOnMiss(k, k', store);
    hide Effect;
  }

  lemma ResponseHeadingDone(hash: string -> int, k: Conn, b: Buf, c: Cache)
    requires c.Wf() && Role(k, c.store) && CacheInv(c) && HashesAgree(hash, c.store)
    requires b == k.b.(buf := b.buf) && b.statusHttpServer.WriteResponseHeading? && Wf(b, c) && !b.isDataGetCash
    ensures var o := OnResponseHeading(hash, b, c); ReadDone(k, c.store, o.b, o.c.store)
  {
    hide Cache.Wf, CacheInv, HashesAgree, FindEndHeading, ParsingResponseHeading, ReadDone, Effect, OpenElement,
      AfterHeading, MarkEnd, OnlyEvicted, Published;
    var end := FindEndHeading(b.buf);
    if end.None? {
      NothingRead(k, c.store, b);
    } else {
      var head := b.buf[..end.value];
      var response := ParsingResponseHeading(head);
      OpenKeeps(hash, b, c, head, response);
      var (c1, offer) := OpenElement(hash, b, c, head, response);
      OpenedDone(hash, k, b, c, head, response, end.value);
    }
  }

  lemma OpenedDone(hash: string -> int, k: Conn, b: Buf, c: Cache, head: string, response: ParseResult, length: nat)
    requires c.Wf() && Role(k, c.store) && CacheInv(c) && HashesAgree(hash, c.store)
    requires b == k.b.(buf := b.buf) && b.statusHttpServer.WriteResponseHeading? && length <= |b.buf|
    ensures var (c1, offer) := OpenElement(hash, b, c, head, response);
      var b1 := AfterHeading(b, length, response, offer);
      Wf(b1, c1) && ReadDone(k, c.store, b1, MarkEnd(b1, c1).store)
  {
    hide CacheInv, HashesAgree, OpenElement, OnlyEvicted, IsCashingData, FindEndBody, AfterHeading, Effect;
    OpenKeeps(hash, b, c, head, response);
    var (c1, offer) := OpenElement(hash, b, c, head, response);
    var b1 := AfterHeading(b, length, response, offer);
    var store' := MarkEnd(b1, c1).store;
    EvictedPrefix(c.store, c1.store, store');
    AddEffect(k, k.(b := b1), c.store, store');
    HeadingRole(k, b, length, response, offer, c.store, store');
    assert b1.(isReadyConnectHttpServer := false) == b1;
    hide Role, Cache.Wf;
  }

  lemma HeadingRole(k: Conn, b: Buf, length: nat, response: ParseResult, offer: Option<Option<nat>>,
                    was: seq<Elem>, store: seq<Elem>)
    requires Role(k, was)
    requires b == k.b.(buf := b.buf) && b.statusHttpServer.WriteResponseHeading? && length <= |b.buf|
    requires offer.Some? && offer.value.Some? ==>
      offer.value.value < |store| && store[offer.value.value].serverConnected
    ensures Role(k.(b := AfterHeading(b, length, response, offer)), store)
  {
    hide FindEndBody;
  }

  /** Marking the new element's end does not touch the old ones. */
  lemma EvictedPrefix(store: seq<Elem>, store1: seq<Elem>, store2: seq<Elem>)
    requires OnlyEvicted(store, store1) && |store2| == |store1|
    requires forall id | 0 <= id < |store| :: store2[id] == store1[id]
    ensures OnlyEvicted(store, store2[..|store|])
  {
  }

  lemma ResponseBodyDone(hash: string -> int, k: Conn, b: Buf, c: Cache, chunk: string)
    requires c.Wf() && Role(k, c.store)
    requires b.(buf := k.b.buf) == k.b && b.statusHttpServer.WriteResponseBody? && Wf(b, c)
    ensures var o := OnResponseBody(b, c, chunk); ReadDone(k, c.store, o.b, o.c.store)
  {
    hide Cache.Wf, Role, Effect, OnResponseBody;
    var o := OnResponseBody(b, c, chunk);
    BodyEffect(k, b, c, chunk);
    BodyRole(k, b, c, chunk);
  }

  lemma BodyEffect(k: Conn, b: Buf, c: Cache, chunk: string)
    requires c.Wf() && Role(k, c.store)
    requires b.(buf := k.b.buf) == k.b && b.statusHttpServer.WriteResponseBody? && Wf(b, c)
    ensures var o := OnResponseBody(b, c, chunk);
      Effect(k, c.store, k.(b := o.b.(isReadyConnectHttpServer := false)), o.c.store)
  {
    hide FindEndBody, Effect;
    var o := OnResponseBody(b, c, chunk);
    var k' := k.(b := o.b.(isReadyConnectHttpServer := false));
    if b.isAddDataToCash {
      var id := b.cashElement.value;
      assert o.c.store == c.store[id := o.c.store[id]];
      OneWrite(k, c.store, k', o.c.store[id]);
    } else {
      NoEffect(k, k', c.store);
    }
  }

  lemma BodyRole(k: Conn, b: Buf, c: Cache, chunk: string)
    requires c.Wf() && Role(k, c.store)
    requires b.(buf := k.b.buf) == k.b && b.statusHttpServer.WriteResponseBody? && Wf(b, c)
    ensures var o := OnResponseBody(b, c, chunk);
      && Role(k.(b := o.b), o.c.store) && !o.b.isReadyConnectHttpServer && o.b.isDataGetCash == k.b.isDataGetCash
  {
    hide FindEndBody, Cache.Wf;
  }

  lemma ChunkDone(hash: string -> int, k: Conn, c: Cache, chunk: string)
    requires c.Wf() && Role(k, c.store) && CacheInv(c) && HashesAgree(hash, c.store)
    ensures Wf(k.b, c)
    ensures var o := ReadFromSocket(hash, k.b, c, chunk); ReadDone(k, c.store, o.b, o.c.store)
  {
    hide CacheInv, HashesAgree, OnRequestHeading, OnResponseHeading, OnResponseBody, ReadDone, Cache.Wf;
    RoleIsWf(k, c);
    var b1 := Receive(k.b, chunk);
    if k.b.statusClient.WriteRequestHeading? {
      RequestHeadingDone(hash, k, b1, c);
    } else if k.b.statusClient.WriteRequestBody? {
      NothingRead(k, c.store, OnRequestBody(b1, chunk));
    } else if k.b.statusHttpServer.WriteResponseHeading? {
      ResponseHeadingDone(hash, k, b1, c);
    } else if k.b.statusHttpServer.WriteResponseBody? {
      ResponseBodyDone(hash, k, b1, c, chunk);
    } else {
      NothingRead(k, c.store, b1);
    }
  }

  // ----- What every action means for the role -----

  /** The connection and the store after an action. */
  ghost predicate Done(k: Conn, store: seq<Elem>, k': Conn, store': seq<Elem>) {
    Effect(k, store, k', store') && Role(k', store')
  }

  /** Roles do not depend on who is connected, nor on histories. */
  lemma RoleOfSame(k1: Conn, k2: Conn, store: seq<Elem>)
    requires Role(k1, store) && k2.b == k1.b.(isServerConnect := k2.b.isServerConnect) && k2.user == k1.user
    requires k2.server ==> k1.server || k1.b.parseResult.Some?
    requires !k2.reader.NoReader? ==> k2.b.isDataGetCash
    ensures Role(k2, store)
  {
  }

  lemma DoneOfSame(k: Conn, store: seq<Elem>, b: Buf, k2: Conn, store': seq<Elem>)
    requires ReadDone(k, store, b, store')
    requires k2.user == k.user
    requires k2.b == b.(isReadyConnectHttpServer := false, isServerConnect := k2.b.isServerConnect)
    requires k2.server ==> k.server || b.parseResult.Some?
    requires k2.reader == k.reader || k2.b.isDataGetCash
    ensures Done(k, store, k2, store')
  {
    var k1 := k.(b := b.(isReadyConnectHttpServer := false));
    assert Role(k1, store');
    hide Effect;
    EffectIsRole(k, store, k1, k2, store');
    RoleOfSame(k1, k2, store');
  }

  /** A connection that neither reads the cache nor writes to it can come and go without effect. */
  lemma EffectOfIdle(k: Conn, store: seq<Elem>, k1: Conn, k2: Conn, store': seq<Elem>)
    requires Effect(k, store, k1, store')
    requires !k1.b.isDataGetCash && !k1.b.isAddDataToCash && !k2.b.isDataGetCash && !k2.b.isAddDataToCash
    ensures Effect(k, store, k2, store')
  {
    hide Grows, SameResponse, Spared;
    assert forall id :: Reads(k2, id) == Reads(k1, id) && WritesTo(k2, id) == WritesTo(k1, id);
  }

  lemma DeleteServerDone(k: Conn, c: Cache)
    requires c.Wf() && Role(k, c.store)
    ensures Wf(k.b, c)
    ensures var (k', c') := DeleteServer(k, c); Done(k, c.store, k', c'.store)
  {
    RoleIsWf(k, c);
    var (k', c') := DeleteServer(k, c);
    if k.b.isAddDataToCash {
      var id := k.b.cashElement.value;
      assert c'.store == c.store[id := c'.store[id]];
      OneWrite(k, c.store, k', c'.store[id]);
    } else {
      NoEffect(k, k', c.store);
    }
    hide Effect;
  }

  lemma DeleteUserDone(k: Conn, c: Cache)
    requires c.Wf() && Role(k, c.store) && k.user
    ensures Wf(k.b, c)
    ensures var (k', c') := DeleteUser(k, c); Done(k, c.store, k', c'.store)
  {
    RoleIsWf(k, c);
    var (k', c') := DeleteUser(k, c);
    if k.b.isDataGetCash {
      OneReaderLess(k, c.store, k', k.b.cashElement.value, c'.store);
    } else {
      OneUserLess(k, c.store, k');
    }
    hide Effect;
  }

  lemma OneUserLess(k: Conn, store: seq<Elem>, k': Conn)
    requires !k.b.isDataGetCash && k'.b.isDataGetCash == k.b.isDataGetCash
    requires k'.b.isAddDataToCash == k.b.isAddDataToCash && k'.b.cashElement == k.b.cashElement
    ensures Effect(k, store, k', store)
  {
  }

  lemma OneReaderLess(k: Conn, store: seq<Elem>, k': Conn, id: nat, store': seq<Elem>)
    requires k.user && k.b.isDataGetCash && !k.b.isAddDataToCash && k.b.cashElement == Some(id) && id < |store|
    requires !k'.user && !k'.b.isAddDataToCash
    requires store' == store[id := store[id].(users := store[id].users - 1)]
    ensures Effect(k, store, k', store')
  {
  }

  lemma UserReadDone(hash: string -> int, k: Conn, c: Cache, chunk: string, connected: bool)
    requires c.Wf() && Role(k, c.store) && CacheInv(c) && HashesAgree(hash, c.store) && k.user
    ensures Wf(k.b, c)
    ensures var (k', c') := UserRead(hash, k, c, chunk, connected); Done(k, c.store, k', c'.store)
  {
    hide CacheInv, HashesAgree, ReadFromSocket, Effect, Role, Cache.Wf, Wf, DeleteUser, Done;
    ChunkDone(hash, k, c, chunk);
    var o := ReadFromSocket(hash, k.b, c, chunk);
    var (k', c') := UserRead(hash, k, c, chunk, connected);
    if o.b.isReadyConnectHttpServer && !connected && !o.b.isDataGetCash {
      Cleared(o.b, o.c);
      var k1 := k.(b := o.b.(isReadyConnectHttpServer := false), reqIn := k.reqIn + chunk);
      DoneOfSame(k, c.store, o.b, k1, o.c.store);
      IdleUserDone(k, c.store, k1, o.c);
    } else {
      hide ReadDone;
      FlagIsClear(k, c.store, o.b, o.c.store);
      DoneOfSame(k, c.store, o.b, k', o.c.store);
    }
  }

  lemma FlagIsClear(k: Conn, store: seq<Elem>, b: Buf, store': seq<Elem>)
    requires ReadDone(k, store, b, store')
    ensures b.isReadyConnectHttpServer ==> !b.isDataGetCash && b.parseResult.Some?
    ensures !b.isReadyConnectHttpServer ==> b == b.(isReadyConnectHttpServer := false)
  {
    hide Effect, Role;
  }

  lemma IdleUserDone(k: Conn, store: seq<Elem>, k1: Conn, c: Cache)
    requires Done(k, store, k1, c.store) && Wf(k1.b, c) && k1.user
    requires !k1.b.isDataGetCash && !k1.b.isAddDataToCash
    ensures var (k', c') := DeleteUser(k1, c); Done(k, store, k', c'.store)
  {
    DeleteUserDone(k1, c);
    var (k', c') := DeleteUser(k1, c);
    assert c' == c && !k'.b.isDataGetCash && !k'.b.isAddDataToCash;
    hide Effect, Role, DeleteUser;
    EffectOfIdle(k, store, k1, k', c.store);
  }

  lemma IdleServerDone(k: Conn, store: seq<Elem>, k1: Conn, c: Cache)
    requires Done(k, store, k1, c.store) && Wf(k1.b, c)
    requires !k1.b.isDataGetCash && !k1.b.isAddDataToCash
    ensures var (k', c') := DeleteServer(k1, c); Done(k, store, k', c'.store)
  {
    DeleteServerDone(k1, c);
    var (k', c') := DeleteServer(k1, c);
    assert c' == c && !k'.b.isDataGetCash && !k'.b.isAddDataToCash;
    hide Effect, Role, DeleteServer;
    EffectOfIdle(k, store, k1, k', c.store);
  }

  lemma ServerReadDone(hash: string -> int, k: Conn, c: Cache, chunk: string, connected: bool)
    requires c.Wf() && Role(k, c.store) && CacheInv(c) && HashesAgree(hash, c.store)
    ensures Wf(k.b, c)
    ensures var (k', c') := ServerRead(hash, k, c, chunk, connected); Done(k, c.store, k', c'.store)
  {
    hide CacheInv, HashesAgree, ReadFromSocket, Effect, Role, Cache.Wf, Wf, DeleteServer, Done;
    ChunkDone(hash, k, c, chunk);
    var o := ReadFromSocket(hash, k.b, c, chunk);
    var (k', c') := ServerRead(hash, k, c, chunk, connected);
    if o.b.isReadyConnectHttpServer && !connected {
      Cleared(o.b, o.c);
      var over := k.b.statusHttpServer == EndWork;
      var k1 := k.(b := o.b.(isReadyConnectHttpServer := false), respIn := if over then k.respIn else k.respIn + chunk,
                   late := if over then k.late + chunk else k.late);
      DoneOfSame(k, c.store, o.b, k1, o.c.store);
      IdleServerDone(k, c.store, k1, o.c);
    } else {
      hide ReadDone;
      FlagIsClear(k, c.store, o.b, o.c.store);
      DoneOfSame(k, c.store, o.b, k', o.c.store);
    }
  }

  /** The buffer after a drain or a look. */
  lemma DrainedRole(b: Buf, c: Cache, k: Conn)
    requires c.Wf() && Role(k, c.store) && b == k.b && Wf(b, c) && (k.user || k.server)
    ensures var b1 := ProofSend(RefreshReady(b, c), c, SendBuf(b, c, ""));
      && b1.isDataGetCash == b.isDataGetCash && b1.isAddDataToCash == b.isAddDataToCash
      && b1.cashElement == b.cashElement && Role(k.(b := b1), c.store)
  {
    hide Cache.Wf;
  }

  lemma LookedRole(k: Conn, c: Cache)
    requires c.Wf() && Role(k, c.store) && Wf(k.b, c)
    ensures var b1 := RefreshReady(k.b, c);
      && b1.isDataGetCash == k.b.isDataGetCash && b1.isAddDataToCash == k.b.isAddDataToCash
      && b1.cashElement == k.b.cashElement && Role(k.(b := b1), c.store)
  {
    hide Cache.Wf;
  }

  lemma ReaderRole(k: Conn, c: Cache, ok: bool, taken: nat)
    requires c.Wf() && Role(k, c.store) && Wf(k.b, c) && k.b.isDataGetCash
    ensures var k' := ReaderStep(k, c, ok, taken); SameRole(k, k') && Role(k', c.store)
  {
    hide Wf, Role, ReaderTest, ReaderWrite, ProofSend;
    if k.reader.SendProof? {
      CountedRole(k, c, |k.reader.sent|);
      ProofOfReader(k.b, c, k.reader.sent);
      var b1 := ProofSend(k.b, c, k.reader.sent);
      RoleOfReader(k.(b := b1), ReaderStep(k, c, ok, taken), c.store);
    } else if k.reader.SendWrite? {
      WriteRole(k, c, ok, taken);
    } else {
      TestRole(k, c, ok);
    }
  }

  lemma RoleOfReader(k: Conn, k': Conn, store: seq<Elem>)
    requires Role(k, store) && k.b.isDataGetCash && k'.b == k.b && k'.user == k.user && k'.server == k.server
    ensures Role(k', store)
  {
  }

  lemma WriteRole(k: Conn, c: Cache, ok: bool, taken: nat)
    requires c.Wf() && Role(k, c.store) && Wf(k.b, c) && k.b.isDataGetCash && k.reader.SendWrite?
    ensures var k' := ReaderWrite(k, c, ok, taken); SameRole(k, k') && Role(k', c.store)
  {
    hide Wf, Role, SendBuf, Written;
    RoleOfReader(k, ReaderWrite(k, c, ok, taken), c.store);
  }

  lemma TestRole(k: Conn, c: Cache, ok: bool)
    requires c.Wf() && Role(k, c.store) && Wf(k.b, c) && k.b.isDataGetCash
    ensures var k' := ReaderTest(k, c, ok); SameRole(k, k') && Role(k', c.store)
  {
    hide Wf, Role, RefreshReady, NextPc;
    LookedRole(k, c);
    var k' := ReaderTest(k, c, ok);
    RoleOfReader(if k'.b == k.b then k else k.(b := RefreshReady(k.b, c)), k', c.store);
  }

  lemma ProofOfReader(b: Buf, c: Cache, sent: string)
    requires Wf(b, c) && b.isDataGetCash
    ensures ProofSend(b, c, sent) == ProofSendFromCache(b, c.store[b.cashElement.value], |sent|)
  {
  }

  lemma CountedRole(k: Conn, c: Cache, sent: nat)
    requires c.Wf() && Role(k, c.store) && Wf(k.b, c) && k.b.isDataGetCash
    ensures var b1 := ProofSendFromCache(k.b, c.store[k.b.cashElement.value], sent);
      && b1.isDataGetCash == k.b.isDataGetCash && b1.isAddDataToCash == k.b.isAddDataToCash
      && b1.cashElement == k.b.cashElement && Role(k.(b := b1), c.store)
  {
    hide Cache.Wf;
  }

  // ----- Any action -----

  lemma ActionKeepsCache(hash: string -> int, k: Conn, c: Cache, a: Action)
    requires Wf(k.b, c) && CacheInv(c) && HashesAgree(hash, c.store) && !a.Accept? && PossibleAt(k, c, a)
    ensures var c' := ApplyAt(hash, k, c, a).1; CacheInv(c') && HashesAgree(hash, c'.store)
  {
    hide CacheInv, HashesAgree, UserRead, ServerRead, DeleteUser, DeleteServer, DrainToServer, DrainToUser,
      ReaderStep, LookAt, Wf, ServerMayDrain, UserMayDrain;
    match a {
      case UserChunk(_, chunk, connected) => ChunksKeepCache(hash, k, c, chunk, connected);
      case ServerChunk(_, chunk, connected) => ChunksKeepCache(hash, k, c, chunk, connected);
      case DrainServer(_, _) =>
      case DrainUser(_, _) =>
      case Look(_) =>
      case ReadCash(_, _, _) =>
      case _ => TeardownKeepsCache(hash, k, c);
    }
  }

  /** Whatever happens to a connection, its role holds afterwards and everybody else is spared. */
  lemma ActionDone(hash: string -> int, k: Conn, c: Cache, a: Action)
    requires c.Wf() && Role(k, c.store) && CacheInv(c) && HashesAgree(hash, c.store)
    requires Wf(k.b, c) && !a.Accept? && PossibleAt(k, c, a)
    ensures var (k', c') := ApplyAt(hash, k, c, a); Done(k, c.store, k', c'.store)
  {
    hide CacheInv, HashesAgree, UserRead, ServerRead, DeleteUser, DeleteServer, ReaderStep, Wf, Role, Effect,
      RefreshReady, SendBuf, ProofSend, Written, Cache.Wf;
    match a {
      case UserChunk(_, chunk, connected) => UserReadDone(hash, k, c, chunk, connected);
      case ServerChunk(_, chunk, connected) => ServerReadDone(hash, k, c, chunk, connected);
      case CloseServer(_) => DeleteServerDone(k, c);
      case CloseUser(_) => DeleteUserDone(k, c);
      case ReaderExit(_) => DeleteUserDone(k, c);
      case DrainServer(_, taken) => DrainDone(k, c, DrainToServer(k, c, taken));
      case DrainUser(_, taken) => DrainDone(k, c, DrainToUser(k, c, taken));
      case Look(_) =>
        LookedRole(k, c);
        NoEffect(k, LookAt(k, c), c.store);
      case ReadCash(_, ok, taken) =>
        ReaderRole(k, c, ok, taken);
        NoEffect(k, ReaderStep(k, c, ok, taken), c.store);
    }
  }

  lemma DrainDone(k: Conn, c: Cache, k': Conn)
    requires c.Wf() && Role(k, c.store) && Wf(k.b, c) && (k.user || k.server)
    requires k'.b == ProofSend(RefreshReady(k.b, c), c, SendBuf(k.b, c, ""))
    requires k'.user == k.user && k'.server == k.server && k'.reader == k.reader
    ensures Done(k, c.store, k', c.store)
  {
    hide Wf, Role, Effect, RefreshReady, SendBuf, ProofSend, Cache.Wf;
    DrainedRole(k.b, c, k);
    NoEffect(k, k', c.store);
    RoleOfDrained(k.(b := k'.b), k', c.store);
  }

  lemma RoleOfDrained(k: Conn, k': Conn, store: seq<Elem>)
    requires Role(k, store) && k'.b == k.b && k'.user == k.user && k'.server == k.server && k'.reader == k.reader
    ensures Role(k', store)
  {
  }
}
