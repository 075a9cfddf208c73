/** Each action of one connection keeps that connection's invariant and has a bounded effect on
    the cache. */
module ProxySteps {
  import opened Wrappers
  import opened Parser
  import opened CacheSpec
  import opened BufferSpec
  import opened ProxySystem
  import opened ProxyInvariant

  /** First in, first out survives an append. */
  lemma Extend(sent: string, waiting: string, received: string, chunk: string)
    requires sent + waiting == received
    ensures sent + (waiting + chunk) == received + chunk
  {
  }

  /** A step that leaves the cache alone and the connection's role in it unchanged. */
  lemma NoEffect(k: Conn, k': Conn, store: seq<Elem>)
    requires k'.user == k.user
    requires k'.b.isDataGetCash == k.b.isDataGetCash && k'.b.isAddDataToCash == k.b.isAddDataToCash
    requires k'.b.cashElement == k.b.cashElement
    ensures Effect(k, store, k', store)
  {
  }

  /** The facts a writer keeps are about its response, not about what it has relayed. */
  lemma StillWrites(k: Conn, k': Conn, store: seq<Elem>)
    requires Writes(k, store)
    requires k'.b.isAddDataToCash == k.b.isAddDataToCash && k'.b.cashElement == k.b.cashElement
    requires k'.b.parseResult == k.b.parseResult && k'.b.requestHeading == k.b.requestHeading
    requires k'.b.isHaveContentLengthResponse == k.b.isHaveContentLengthResponse
    requires k'.b.isDataGetCash == k.b.isDataGetCash
    requires k'.reqIn == k.reqIn && k'.respIn == k.respIn && k'.server == k.server
    ensures Writes(k', store)
  {
    hide Heading, HasHeading, Announced, Complete, Due, Response;
  }

  lemma SomePhase(hash: string -> int, k: Conn, store: seq<Elem>)
    requires InRequestHeading(k) || InRequest(k) || InResponseHeading(k) || InResponseBody(k)
      || OriginGone(k) || Finished(k) || Rejected(k) || InCache(hash, k, store) || Dead(k)
    ensures InSomePhase(hash, k, store)
  {
  }

  // ----- Drains -----

  lemma DrainServerKeeps(hash: string -> int, k: Conn, c: Cache, taken: nat)
    requires Wf(k.b, c) && ConnInv(hash, k, c.store) && ServerMayDrain(k, c)
    ensures ConnInv(hash, DrainToServer(k, c, taken), c.store)
    ensures Effect(k, c.store, DrainToServer(k, c, taken), c.store)
  {
    hide Cache.Wf, ParsingHeading, Heading, Writes, Effect;
    assert InRequest(k);
    var k' := DrainToServer(k, c, taken);
    NoEffect(k, k', c.store);
    StillWrites(k, k', c.store);
    var sent := SendBuf(k.b, c, "");
    assert k.b.buf == sent + k.b.buf[|sent|..];
    assert k'.reqOut + k.b.buf[|sent|..] == k.reqIn;
    if k.b.buf[|sent|..] == "" && k.b.isEndSend {
      assert InResponseHeading(k');
    } else {
      assert InRequest(k');
    }
  }

  lemma DrainUserKeeps(hash: string -> int, k: Conn, c: Cache, taken: nat)
    requires Wf(k.b, c) && ConnInv(hash, k, c.store) && UserMayDrain(k, c)
    ensures ConnInv(hash, DrainToUser(k, c, taken), c.store)
    ensures Effect(k, c.store, DrainToUser(k, c, taken), c.store)
  {
    hide Cache.Wf, ParsingHeading, Heading, Writes, Effect;
    assert InResponseBody(k) || OriginGone(k) || Rejected(k);
    var k' := DrainToUser(k, c, taken);
    NoEffect(k, k', c.store);
    StillWrites(k, k', c.store);
    if Rejected(k) {
      DrainRejected(k, c, taken);
    } else {
      DrainResponse(k, c, taken);
    }
  }

  lemma DrainRejected(k: Conn, c: Cache, taken: nat)
    requires Wf(k.b, c) && Rejected(k) && k.b.statusClient.ReadResponse?
    ensures Rejected(DrainToUser(k, c, taken))
  {
    hide Cache.Wf;
    var sent := SendBuf(k.b, c, "");
    assert k.b.buf == sent + k.b.buf[|sent|..];
    assert (k.respOut + sent) + k.b.buf[|sent|..] == k.respOut + k.b.buf;
  }

  lemma DrainResponse(k: Conn, c: Cache, taken: nat)
    requires Wf(k.b, c) && (InResponseBody(k) || OriginGone(k)) && k.user
    ensures var k' := DrainToUser(k, c, taken);
      Finished(k') || (InResponseBody(k) && InResponseBody(k')) || (OriginGone(k) && OriginGone(k'))
  {
    hide Cache.Wf, ParsingHeading, Heading, Response;
    var k' := DrainToUser(k, c, taken);
    var sent := SendBuf(k.b, c, "");
    assert k.b.buf == sent + k.b.buf[|sent|..];
    assert (k.respOut + sent) + k.b.buf[|sent|..] == k.respOut + k.b.buf;
    assert k.respIn + k.late == k.respIn;
    if k.b.buf[|sent|..] == "" && k.b.isEndSend {
      assert Finished(k');
    }
  }

  // ----- Teardown -----

  /** The cache after an action: unchanged, or one element changed in its open fields. */
  ghost predicate OneElemChanged(c: Cache, id: nat, e: Elem, c': Cache) {
    && id < |c.store| && c' == c.(store := c.store[id := e])
    && e.heading == c.store[id].heading && e.hash == c.store[id].hash && e.reserved == c.store[id].reserved
    && e.lastTouch == c.store[id].lastTouch && e.refund == c.store[id].refund
    && |e.content| >= |c.store[id].content|
  }

  lemma OneElemChangedKeepsCache(hash: string -> int, c: Cache, id: nat, e: Elem, c': Cache)
    requires CacheInv(c) && HashesAgree(hash, c.store) && OneElemChanged(c, id, e, c')
    ensures CacheInv(c') && HashesAgree(hash, c'.store)
  {
    assert HashesAgree(hash, c'.store) by { hide CacheInv; }
    UpdateKeepsInv(c, id, e);
  }

  /** What tearing down the server leaves: the phase the client sees next. */
  lemma DeleteServerPhase(hash: string -> int, k: Conn, c: Cache)
    requires Wf(k.b, c) && InSomePhase(hash, k, c.store) && k.server
    ensures var k' := DeleteServer(k, c).0;
      InRequest(k') || OriginGone(k') || Finished(k') || Dead(k')
  {
    hide Cache.Wf, ParsingHeading, Heading, Response, ReaderData;
    assert InRequest(k) || InResponseHeading(k) || InResponseBody(k) || Finished(k);
    var k' := DeleteServer(k, c).0;
    if InResponseHeading(k) {
      assert OriginGone(k');
    } else if InResponseBody(k) && k.user {
      assert OriginGone(k');
    }
  }

  lemma DeleteServerKeeps(hash: string -> int, k: Conn, c: Cache)
    requires Wf(k.b, c) && ConnInv(hash, k, c.store) && k.server
    requires CacheInv(c) && HashesAgree(hash, c.store)
    ensures var (k', c') := DeleteServer(k, c);
      && CacheInv(c') && HashesAgree(hash, c'.store)
      && ConnInv(hash, k', c'.store) && Effect(k, c.store, k', c'.store)
  {
    hide Cache.Wf, CacheInv, ParsingHeading, Heading, Response, InSomePhase, HashesAgree, Complete;
    DeleteServerPhase(hash, k, c);
    var (k', c') := DeleteServer(k, c);
    if k.b.isAddDataToCash {
      var id := k.b.cashElement.value;
      OneElemChangedKeepsCache(hash, c, id, c'.store[id], c');
    }
    assert Effect(k, c.store, k', c'.store);
    SomePhase(hash, k', c'.store);
  }

  /** A user who leaves takes the connection down, unless its response is being cached. */
  lemma DeleteUserPhase(hash: string -> int, k: Conn, c: Cache)
    requires Wf(k.b, c) && InSomePhase(hash, k, c.store) && Owned(k) && k.user
    ensures var k' := DeleteUser(k, c).0;
      && Owned(k') && !k'.user
      && k'.server == (k.server && k.b.isAddDataToCash)
      && (InResponseBody(k') || Finished(k') || Dead(k'))
  {
    hide Cache.Wf, ParsingHeading, Heading, Response, ReaderData;
    var k' := DeleteUser(k, c).0;
    if k.server && k.b.isAddDataToCash {
      assert InResponseBody(k) || Finished(k);
    }
  }

  lemma DeleteUserKeeps(hash: string -> int, k: Conn, c: Cache)
    requires Wf(k.b, c) && ConnInv(hash, k, c.store) && k.user
    requires CacheInv(c) && HashesAgree(hash, c.store)
    ensures var (k', c') := DeleteUser(k, c);
      && CacheInv(c') && HashesAgree(hash, c'.store)
      && ConnInv(hash, k', c'.store) && Effect(k, c.store, k', c'.store)
  {
    hide Cache.Wf, CacheInv, ParsingHeading, Heading, Response, InSomePhase, HashesAgree, Complete;
    DeleteUserPhase(hash, k, c);
    var (k', c') := DeleteUser(k, c);
    if k.b.isDataGetCash {
      var id := k.b.cashElement.value;
      OneElemChangedKeepsCache(hash, c, id, c'.store[id], c');
    }
    assert Effect(k, c.store, k', c'.store);
    SomePhase(hash, k', c'.store);
  }

  // ----- The cache reader -----

  /** The steps that only look at flags. */
  lemma ReaderTestKept(k: Conn, c: Cache, ok: bool)
    requires Wf(k.b, c) && k.b.isDataGetCash
    requires ReaderData(k, c.store[k.b.cashElement.value]) && !k.reader.NoReader? && !k.reader.Left?
    requires !k.reader.SendWrite? && !k.reader.SendProof?
    ensures ReaderData(ReaderTest(k, c, ok), c.store[k.b.cashElement.value])
  {
    hide Cache.Wf;
  }

  lemma ReaderWriteKept(k: Conn, c: Cache, ok: bool, taken: nat)
    requires Wf(k.b, c) && k.b.isDataGetCash
    requires ReaderData(k, c.store[k.b.cashElement.value]) && k.reader.SendWrite?
    ensures ReaderData(ReaderStep(k, c, ok, taken), c.store[k.b.cashElement.value])
  {
    hide Cache.Wf;
    var content := c.store[k.b.cashElement.value].content;
    var at := k.b.countByteReadFromCash;
    var sent := SendBuf(k.b, c, "");
    assert content[..at] + sent == content[..at + |sent|];
  }

  lemma ReaderProofKept(k: Conn, c: Cache, ok: bool, taken: nat)
    requires Wf(k.b, c) && k.b.isDataGetCash
    requires ReaderData(k, c.store[k.b.cashElement.value]) && k.reader.SendProof?
    ensures ReaderData(ReaderStep(k, c, ok, taken), c.store[k.b.cashElement.value])
  {
    hide Cache.Wf;
  }

  lemma ReaderStepKeeps(hash: string -> int, k: Conn, c: Cache, ok: bool, taken: nat)
    requires Wf(k.b, c) && ConnInv(hash, k, c.store)
    requires k.b.isDataGetCash && k.user && !k.reader.NoReader? && !k.reader.Left?
    ensures ConnInv(hash, ReaderStep(k, c, ok, taken), c.store)
    ensures Effect(k, c.store, ReaderStep(k, c, ok, taken), c.store)
  {
    hide Cache.Wf, ReaderData, ParsingHeading, Heading, Response, Effect;
    var k' := ReaderStep(k, c, ok, taken);
    if k.reader.SendWrite? {
      ReaderWriteKept(k, c, ok, taken);
    } else if k.reader.SendProof? {
      ReaderProofKept(k, c, ok, taken);
    } else {
      ReaderTestKept(k, c, ok);
    }
    NoEffect(k, k', c.store);
    assert InCache(hash, k', c.store);
  }

  /** A look changes nothing but the flag, and that only for a reader. */
  lemma LookKeeps(hash: string -> int, k: Conn, c: Cache)
    requires Wf(k.b, c) && ConnInv(hash, k, c.store) && (k.user || k.server)
    ensures ConnInv(hash, LookAt(k, c), c.store) && Effect(k, c.store, LookAt(k, c), c.store)
  {
    hide Cache.Wf, ReaderData, ParsingHeading, Heading, HasHeading, Response, Effect, Writes, RequestFramed,
      ResponseFramed, Relayed;
    NoEffect(k, LookAt(k, c), c.store);
    if k.b.isDataGetCash {
      assert InCache(hash, k, c.store);
      LookKeepsReader(k, c);
      assert InCache(hash, LookAt(k, c), c.store);
    } else {
      assert LookAt(k, c) == k;
    }
    StillWrites(k, LookAt(k, c), c.store);
  }

  lemma LookKeepsReader(k: Conn, c: Cache)
    requires Wf(k.b, c) && k.b.isDataGetCash && ReaderData(k, c.store[k.b.cashElement.value])
    ensures ReaderData(LookAt(k, c), c.store[k.b.cashElement.value])
  {
    hide Cache.Wf;
  }

  // ----- Response chunks -----

  function Published(request: string, h: int, size: nat, first: string, now: nat): Elem {
    NewElem(request, h, size + |request|, now).(content := first, serverConnected := true)
  }

  lemma PublishKeeps(hash: string -> int, c: Cache, request: string, size: nat, first: string)
    requires CacheInv(c) && HashesAgree(hash, c.store) && !Contains(c, hash(request))
    ensures var (c', id) := Publish(c, request, hash(request), size, first);
      && CacheInv(c') && HashesAgree(hash, c'.store) && OnlyEvicted(c.store, c'.store)
      && (if id.Some? then
            |c'.store| == |c.store| + 1
            && c'.store[|c.store|] == Published(request, hash(request), size, first, c.clock)
          else |c'.store| == |c.store|)
  {
    var h := hash(request);
    var (c1, id) := Add(c, request, h, size);
    AddKeepsInv(c, request, h, size);
    var c' := Publish(c, request, h, size, first).0;
    hide CacheInv, Add;
    if id.Some? {
      var e := Published(request, h, size, first, c.clock);
      assert "" + first == first;
      assert c' == c1.(store := c1.store[id.value := e]);
      UpdateKeepsInv(c1, id.value, e);
    }
    assert HashesAgree(hash, c'.store);
  }

  /** Lines 72-98, on the cache: nothing, or a new element that holds the response so far. */
  lemma OpenKeeps(hash: string -> int, b: Buf, c: Cache, head: string, response: ParseResult)
    requires CacheInv(c) && HashesAgree(hash, c.store)
    ensures var (c', offer) := OpenElement(hash, b, c, head, response);
      && CacheInv(c') && HashesAgree(hash, c'.store) && OnlyEvicted(c.store, c'.store)
      && (if offer.Some? && offer.value.Some? then
            && offer.value.value == |c.store| && |c'.store| == |c.store| + 1 && IsCashingData(b, response)
            && c'.store[|c.store|] ==
                 Published(b.requestHeading, hash(b.requestHeading), response.contentLength + |head|, b.buf, c.clock)
          else |c'.store| == |c.store|)
  {
    var h := hash(b.requestHeading);
    hide Publish;
    if IsCashingData(b, response) && !Contains(c, h) {
      PublishKeeps(hash, c, b.requestHeading, response.contentLength + |head|, b.buf);
    }
    hide CacheInv;
  }

  lemma EvictedIsHarmless(k: Conn, k': Conn, store: seq<Elem>, store': seq<Elem>)
    requires OnlyEvicted(store, store')
    requires k'.user == k.user && k'.b.isDataGetCash == k.b.isDataGetCash == false
    ensures forall id | 0 <= id < |store| ::
      Grows(store[id], store'[id]) && SameResponse(store[id], store'[id]) && Spared(store[id], store'[id])
      && store'[id].users == store[id].users - Reads(k, id) + Reads(k', id)
  {
    forall id | 0 <= id < |store|
      ensures Grows(store[id], store'[id]) && SameResponse(store[id], store'[id]) && Spared(store[id], store'[id])
        && store'[id].users == store[id].users - Reads(k, id) + Reads(k', id)
    {
      assert Evicted(store[id], store'[id]);
    }
  }

  lemma MarkEndKeeps(hash: string -> int, b: Buf, c: Cache)
    requires Wf(b, c) && CacheInv(c) && HashesAgree(hash, c.store)
    ensures CacheInv(MarkEnd(b, c)) && HashesAgree(hash, MarkEnd(b, c).store)
  {
    hide CacheInv, HashesAgree;
    var c' := MarkEnd(b, c);
    if c' != c {
      OneElemChangedKeepsCache(hash, c, b.cashElement.value, c'.store[b.cashElement.value], c');
    }
  }

  /** What the buffer becomes with the chunk that completes the response heading depends only on
      the bytes received so far. */
  lemma HeadingPhase(k: Conn, chunk: string, offer: Option<Option<nat>>)
    requires InResponseHeading(k) && Owned(k) && HasHeading(k.respIn + chunk)
    ensures var R := k.respIn + chunk;
      var b1 := Receive(k.b, chunk);
      var k' := k.(b := AfterHeading(b1, |Heading(R)|, Response(R), offer), respIn := R);
      && b1.buf == R && InResponseBody(k') && Owned(k')
  {
    hide ParsingHeading, ParsingResponseHeading, FindEndHeading, FindEndBody;
  }

  lemma ServerReadHeading(hash: string -> int, k: Conn, c: Cache, chunk: string, connected: bool)
    requires Wf(k.b, c) && InResponseHeading(k) && Owned(k)
    ensures var R := k.respIn + chunk;
      var b1 := Receive(k.b, chunk);
      && Wf(b1, c) && b1.buf == R
      && ServerRead(hash, k, c, chunk, connected) ==
          if HasHeading(R) then
            var (c1, offer) := OpenElement(hash, b1, c, Heading(R), Response(R));
            var b2 := AfterHeading(b1, |Heading(R)|, Response(R), offer);
            (k.(b := b2, respIn := R), MarkEnd(b2, c1))
          else (k.(b := b1, respIn := R), c)
  {
    hide Cache.Wf, OpenElement, FindEndHeading, ParsingResponseHeading, AfterHeading, MarkEnd;
  }

  /** A new element fits the connection that just opened it. */
  lemma NewWriter(hash: string -> int, k: Conn, chunk: string, now: nat)
    requires InResponseHeading(k) && Owned(k) && HasHeading(k.respIn + chunk)
    requires IsCashingData(Receive(k.b, chunk), Response(k.respIn + chunk))
    ensures var R := k.respIn + chunk;
      var b1 := Receive(k.b, chunk);
      var e := Published(k.b.requestHeading, hash(k.b.requestHeading), Due(R), R, now);
      forall id :: var k' := k.(b := AfterHeading(b1, |Heading(R)|, Response(R), Some(Some(id))), respIn := R);
        WriterOf(k', e.(downloadEnd := k'.b.lengthBody <= 0))
  {
    hide ParsingHeading, ParsingResponseHeading, FindEndHeading, FindEndBody;
  }

  /** The first response chunk that completes the heading opens the body phase and, if the response
      is to be cached, an element that holds every response byte so far. */
  lemma HeadingDone(hash: string -> int, k: Conn, c: Cache, chunk: string, connected: bool)
    requires Wf(k.b, c) && InResponseHeading(k) && Owned(k) && HasHeading(k.respIn + chunk)
    requires CacheInv(c) && HashesAgree(hash, c.store)
    ensures var (k', c') := ServerRead(hash, k, c, chunk, connected);
      && CacheInv(c') && HashesAgree(hash, c'.store)
      && InResponseBody(k') && Owned(k')
      && (if k'.b.isAddDataToCash then
            && k'.b.cashElement == Some(|c.store|) && |c'.store| == |c.store| + 1
            && WriterOf(k', c'.store[|c.store|]) && c'.store[|c.store|].users == 0
            && OnlyEvicted(c.store, c'.store[..|c.store|])
          else OnlyEvicted(c.store, c'.store) && |c'.store| == |c.store|)
  {
    ServerReadHeading(hash, k, c, chunk, connected);
    var R, b1 := k.respIn + chunk, Receive(k.b, chunk);
    OpenKeeps(hash, b1, c, Heading(R), Response(R));
    var (c1, offer) := OpenElement(hash, b1, c, Heading(R), Response(R));
    HeadingPhase(k, chunk, offer);
    var b2 := AfterHeading(b1, |Heading(R)|, Response(R), offer);
    hide CacheInv, Cache.Wf, OpenElement, HashesAgree, InResponseBody, InResponseHeading, AfterHeading, WriterOf,
      Heading, Response, Owned, IsCashingData;
    MarkEndKeeps(hash, b2, c1);
    if b2.isAddDataToCash {
      NewWriter(hash, k, chunk, c.clock);
    }
  }

  /** The connection after one more chunk of the body. */
  function WithBody(k: Conn, chunk: string): Conn {
    k.(b := AfterBody(Receive(k.b, chunk), |chunk|), respIn := k.respIn + chunk)
  }

  lemma BodyRelayed(k: Conn, chunk: string)
    requires k.user && k.b.isClientConnect && Relayed(k) && k.late == "" && chunk != ""
    ensures Relayed(WithBody(k, chunk)) && ReadyMeansData(WithBody(k, chunk))
  {
    hide FindEndBody;
    assert k.respOut + k.b.buf == k.respIn;
    assert k.respOut + (k.b.buf + chunk) == k.respIn + chunk + "";
  }

  lemma BodyFramed(k: Conn, chunk: string)
    requires ResponseFramed(k)
    ensures ResponseFramed(WithBody(k, chunk))
    ensures k.b.isHaveContentLengthResponse ==>
      (Complete(k.respIn + chunk) <==> WithBody(k, chunk).b.lengthBody <= 0)
  {
    FramingIsStable(k.respIn, chunk);
    hide ParsingResponseHeading, FindEndHeading, FindEndBody, Heading, Response, HasHeading;
  }

  lemma BodyPhase(k: Conn, chunk: string)
    requires InResponseBody(k) && Owned(k) && chunk != ""
    ensures InResponseBody(WithBody(k, chunk)) && Owned(WithBody(k, chunk))
  {
    BodyFramed(k, chunk);
    if k.user { BodyRelayed(k, chunk); }
    hide ResponseFramed, Relayed, ReadyMeansData, ParsingHeading, Heading, FindEndBody;
  }

  /** A writer's element after one more chunk of the body. */
  lemma BodyWriter(k: Conn, e: Elem, chunk: string)
    requires InResponseBody(k) && k.b.isAddDataToCash && WriterOf(k, e) && chunk != ""
    ensures var k' := WithBody(k, chunk);
      var e' := e.(content := e.content + chunk, downloadEnd := e.downloadEnd || k'.b.lengthBody <= 0);
      WriterOf(k', e') && Grows(e, e')
  {
    FramingIsStable(k.respIn, chunk);
    BodyFramed(k, chunk);
    hide ParsingHeading, ParsingResponseHeading, FindEndHeading, FindEndBody, Heading;
  }

  lemma ServerReadBody(hash: string -> int, k: Conn, c: Cache, chunk: string, connected: bool)
    requires Wf(k.b, c) && InResponseBody(k) && !k.b.isReadyConnectHttpServer
    ensures var k' := WithBody(k, chunk);
      var c1 := if k.b.isAddDataToCash then Append(c, k.b.cashElement.value, chunk) else c;
      Wf(k'.b, c1) && ServerRead(hash, k, c, chunk, connected) == (k', MarkEnd(k'.b, c1))
  {
    hide Cache.Wf, AfterBody, MarkEnd;
  }

  /** One more chunk of the body: relayed if the client is there, cached if the response is. */
  lemma BodyKeeps(hash: string -> int, k: Conn, c: Cache, chunk: string, connected: bool)
    requires Wf(k.b, c) && InResponseBody(k) && Owned(k) && Writes(k, c.store) && chunk != ""
    requires CacheInv(c) && HashesAgree(hash, c.store)
    ensures var (k', c') := ServerRead(hash, k, c, chunk, connected);
      && CacheInv(c') && HashesAgree(hash, c'.store)
      && ConnInv(hash, k', c'.store) && Effect(k, c.store, k', c'.store)
  {
    ServerReadBody(hash, k, c, chunk, connected);
    BodyPhase(k, chunk);
    var (k', c') := ServerRead(hash, k, c, chunk, connected);
    hide CacheInv, Cache.Wf, HashesAgree, InResponseBody, WithBody, WriterOf, Heading, Response, Owned, Grows,
      InSomePhase, MarkEnd, ServerRead;
    SomePhase(hash, k', c'.store);
    if k.b.isAddDataToCash {
      var id := k.b.cashElement.value;
      var e := c.store[id];
      BodyWriter(k, e, chunk);
      var e' := e.(content := e.content + chunk, downloadEnd := e.downloadEnd || k'.b.lengthBody <= 0);
      assert c' == c.(store := c.store[id := e']) by { MarkedAppend(k', c, id, chunk); }
      OneElemChangedKeepsCache(hash, c, id, e', c');
      OneWrite(k, c.store, k', e');
    } else {
      NoEffect(k, k', c.store);
    }
  }

  lemma MarkedAppend(k: Conn, c: Cache, id: nat, chunk: string)
    requires c.Wf() && id < |c.store| && k.b.cashElement == Some(id) && k.b.isAddDataToCash
    requires Wf(k.b, Append(c, id, chunk)) && k.b.isHaveContentLengthResponse
    ensures var e := c.store[id];
      MarkEnd(k.b, Append(c, id, chunk)) ==
        c.(store := c.store[id :=
             e.(content := e.content + chunk, downloadEnd := e.downloadEnd || k.b.lengthBody <= 0)])
  {
    hide Cache.Wf;
  }

  lemma OneWrite(k: Conn, store: seq<Elem>, k': Conn, e: Elem)
    requires k.b.isAddDataToCash && k.b.cashElement.Some? && k.b.cashElement.value < |store|
    requires Grows(store[k.b.cashElement.value], e) && e.users == store[k.b.cashElement.value].users
    requires e.refund == store[k.b.cashElement.value].refund
    requires k'.b.isAddDataToCash && k'.b.cashElement == k.b.cashElement
    requires k'.user == k.user && k'.b.isDataGetCash == k.b.isDataGetCash
    ensures Effect(k, store, k', store[k.b.cashElement.value := e])
  {
  }

  lemma HeadingGrows(hash: string -> int, k: Conn, c: Cache, chunk: string, connected: bool)
    requires Wf(k.b, c) && InResponseHeading(k) && Owned(k) && !HasHeading(k.respIn + chunk)
    ensures var (k', c') := ServerRead(hash, k, c, chunk, connected);
      c' == c && ConnInv(hash, k', c.store) && Effect(k, c.store, k', c.store)
  {
    ServerReadHeading(hash, k, c, chunk, connected);
    var (k', c') := ServerRead(hash, k, c, chunk, connected);
    hide HasHeading, ServerRead, Wf, Effect, Parsed, WriterOf;
    NoEffect(k, k', c.store);
    assert InResponseHeading(k');
    SomePhase(hash, k', c.store);
  }

  /** An add by a connection that had no element of its own. */
  lemma AddEffect(k: Conn, k': Conn, store: seq<Elem>, store': seq<Elem>)
    requires !k.b.isAddDataToCash && k'.user == k.user && k'.b.isDataGetCash == k.b.isDataGetCash == false
    requires if k'.b.isAddDataToCash then
               && k'.b.cashElement == Some(|store|) && |store'| == |store| + 1 && store'[|store|].users == 0
               && OnlyEvicted(store, store'[..|store|])
             else OnlyEvicted(store, store') && |store'| == |store|
    ensures Effect(k, store, k', store')
  {
    EvictedIsHarmless(k, k', store, store'[..|store|]);
    assert forall id | 0 <= id < |store| :: store'[..|store|][id] == store'[id];
  }

  lemma HeadingKeeps(hash: string -> int, k: Conn, c: Cache, chunk: string, connected: bool)
    requires Wf(k.b, c) && InResponseHeading(k) && Owned(k)
    requires CacheInv(c) && HashesAgree(hash, c.store)
    ensures var (k', c') := ServerRead(hash, k, c, chunk, connected);
      && CacheInv(c') && HashesAgree(hash, c'.store)
      && ConnInv(hash, k', c'.store) && Effect(k, c.store, k', c'.store)
  {
    var (k', c') := ServerRead(hash, k, c, chunk, connected);
    if HasHeading(k.respIn + chunk) {
      HeadingDone(hash, k, c, chunk, connected);
      hide CacheInv, HashesAgree, WriterOf, HasHeading, ServerRead, Wf, InSomePhase, OnlyEvicted, Effect,
        ResponseFramed, Relayed, Parsed, ReadyMeansData;
      SomePhase(hash, k', c'.store);
      AddEffect(k, k', c.store, c'.store);
    } else {
      hide CacheInv, ServerRead, InSomePhase, Effect;
      HeadingGrows(hash, k, c, chunk, connected);
    }
  }

  /** Bytes that come after the exchange is over stay in the buffer and reach no one. */
  lemma LateKeeps(hash: string -> int, k: Conn, c: Cache, chunk: string, connected: bool)
    requires Wf(k.b, c) && ConnInv(hash, k, c.store) && k.server && k.b.statusHttpServer.EndWork?
    ensures var (k', c') := ServerRead(hash, k, c, chunk, connected);
      c' == c && ConnInv(hash, k', c.store) && Effect(k, c.store, k', c.store)
  {
    hide Cache.Wf, ParsingHeading, Heading, Response, ReaderData, Effect, Writes, HasHeading;
    assert Finished(k);
    var (k', c') := ServerRead(hash, k, c, chunk, connected);
    NoEffect(k, k', c.store);
    StillWrites(k, k', c.store);
    assert Finished(k');
  }

  lemma ServerReadKeeps(hash: string -> int, k: Conn, c: Cache, chunk: string, connected: bool)
    requires Wf(k.b, c) && ConnInv(hash, k, c.store) && CacheInv(c) && HashesAgree(hash, c.store)
    requires k.server && chunk != "" && k.b.statusHttpServer != ReadRequest
    ensures var (k', c') := ServerRead(hash, k, c, chunk, connected);
      && CacheInv(c') && HashesAgree(hash, c'.store)
      && ConnInv(hash, k', c'.store) && Effect(k, c.store, k', c'.store)
  {
    hide Cache.Wf, CacheInv, HashesAgree, ParsingHeading, Heading, Response, ReaderData, HasHeading, Writes, Effect,
      ServerRead;
    assert InResponseHeading(k) || InResponseBody(k) || Finished(k);
    if InResponseHeading(k) {
      HeadingKeeps(hash, k, c, chunk, connected);
    } else if InResponseBody(k) {
      BodyKeeps(hash, k, c, chunk, connected);
    } else {
      LateKeeps(hash, k, c, chunk, connected);
    }
  }

  // ----- Request chunks -----

  lemma UserReadBody(hash: string -> int, k: Conn, c: Cache, chunk: string, connected: bool)
    requires Wf(k.b, c) && k.b.statusClient.WriteRequestBody? && !k.b.isReadyConnectHttpServer
    ensures UserRead(hash, k, c, chunk, connected) ==
      (k.(b := OnRequestBody(Receive(k.b, chunk), chunk), reqIn := k.reqIn + chunk), c)
  {
    hide Cache.Wf;
  }

  function WithRequestBody(k: Conn, chunk: string): Conn {
    k.(b := OnRequestBody(Receive(k.b, chunk), chunk), reqIn := k.reqIn + chunk)
  }

  lemma RequestBodyFramed(k: Conn, chunk: string)
    requires Parsed(k) && RequestFramed(k) && k.b.statusClient.WriteRequestBody?
    ensures Parsed(WithRequestBody(k, chunk)) && RequestFramed(WithRequestBody(k, chunk))
  {
    FramingIsStable(k.reqIn, chunk);
    hide ParsingHeading, HasHeading, Heading;
  }

  lemma RequestBodyPhase(k: Conn, chunk: string)
    requires InRequest(k) && Owned(k) && k.b.statusClient.WriteRequestBody? && chunk != ""
    ensures InRequest(WithRequestBody(k, chunk)) && Owned(WithRequestBody(k, chunk))
  {
    RequestBodyFramed(k, chunk);
    Extend(k.reqOut, k.b.buf, k.reqIn, chunk);
    hide Parsed, RequestFramed;
  }

  lemma RequestBodyKeeps(hash: string -> int, k: Conn, c: Cache, chunk: string, connected: bool)
    requires Wf(k.b, c) && InRequest(k) && Owned(k) && chunk != ""
    requires k.b.statusClient.WriteRequestBody?
    ensures var (k', c') := UserRead(hash, k, c, chunk, connected);
      c' == c && ConnInv(hash, k', c.store) && Effect(k, c.store, k', c.store)
  {
    UserReadBody(hash, k, c, chunk, connected);
    RequestBodyPhase(k, chunk);
    var k' := WithRequestBody(k, chunk);
    hide Wf, InSomePhase, Effect, UserRead, WriterOf, Parsed, RequestFramed;
    NoEffect(k, k', c.store);
    SomePhase(hash, k', c.store);
  }

  /** The buffer and the cache when the request heading is complete, by case. */
  lemma UserReadHeading(hash: string -> int, k: Conn, c: Cache, chunk: string, connected: bool)
    requires Wf(k.b, c) && InRequestHeading(k) && Owned(k)
    ensures var R := k.reqIn + chunk;
      var b1 := Receive(k.b, chunk);
      var k1 := k.(b := b1, reqIn := R);
      && Wf(b1, c) && b1.buf == R
      && UserRead(hash, k, c, chunk, connected) ==
          if !HasHeading(R) then (k1, c)
          else if ParsingHeading(Heading(R)).None? then (k1.(b := Reject(b1, Heading(R))), c)
          else
            var parsed := ParsingHeading(Heading(R)).value;
            var (c1, hit) := Find(c, hash(Heading(R)));
            if hit.Some? then
              (k1.(b := StartReading(b1, Heading(R), parsed, hit.value), reader := TestOrigin),
               AddUsers(c1, hit.value, 1))
            else
              var b2 := StartRelay(b1, Heading(R), parsed).(isReadyConnectHttpServer := false);
              if connected then
                (k1.(b := b2.(isServerConnect := true), origins := k.origins + 1, server := true, userHasPair := true,
                     serverKnowsUser := true),
                 c)
              else DeleteUser(k1.(b := b2), c)
  {
    hide Cache.Wf, Find, AddUsers, ParsingHeading, FindEndHeading, DeleteUser;
    var R, b1 := k.reqIn + chunk, Receive(k.b, chunk);
    assert ReadFromSocket(hash, k.b, c, chunk) == OnRequestHeading(hash, b1, c);
    if HasHeading(R) && ParsingHeading(Heading(R)).Some? {
      assert OnRequestHeading(hash, b1, c)
        == OnParsedRequest(hash, b1, c, Heading(R), ParsingHeading(Heading(R)).value);
    }
  }

  lemma RequestHeadingGrows(hash: string -> int, k: Conn, c: Cache, chunk: string, connected: bool)
    requires Wf(k.b, c) && InRequestHeading(k) && Owned(k) && !HasHeading(k.reqIn + chunk)
    ensures var (k', c') := UserRead(hash, k, c, chunk, connected);
      c' == c && ConnInv(hash, k', c.store) && Effect(k, c.store, k', c.store)
  {
    UserReadHeading(hash, k, c, chunk, connected);
    var k' := UserRead(hash, k, c, chunk, connected).0;
    hide Wf, UserRead, HasHeading, Effect, WriterOf;
    NoEffect(k, k', c.store);
    assert InRequestHeading(k');
  }

  lemma RequestRejected(hash: string -> int, k: Conn, c: Cache, chunk: string, connected: bool)
    requires Wf(k.b, c) && InRequestHeading(k) && Owned(k) && HasHeading(k.reqIn + chunk)
    requires ParsingHeading(Heading(k.reqIn + chunk)).None?
    ensures var (k', c') := UserRead(hash, k, c, chunk, connected);
      c' == c && ConnInv(hash, k', c.store) && Effect(k, c.store, k', c.store)
  {
    UserReadHeading(hash, k, c, chunk, connected);
    var k' := UserRead(hash, k, c, chunk, connected).0;
    hide Wf, UserRead, HasHeading, Heading, ParsingHeading, Effect, WriterOf;
    NoEffect(k, k', c.store);
    assert Rejected(k');
  }

  lemma HitCache(hash: string -> int, c: Cache, h: int)
    requires CacheInv(c) && HashesAgree(hash, c.store) && Contains(c, h)
    ensures var (c1, hit) := Find(c, h);
      && hit.Some? && hit.value < |c.store|
      && var c' := AddUsers(c1, hit.value, 1);
      && CacheInv(c') && HashesAgree(hash, c'.store) && |c'.store| == |c.store|
      && c'.store[hit.value].hash == h
      && (forall id | 0 <= id < |c.store| ::
            Grows(c.store[id], c'.store[id]) && SameResponse(c.store[id], c'.store[id])
            && Spared(c.store[id], c'.store[id])
            && c'.store[id].users == c.store[id].users + (if id == hit.value then 1 else 0))
  {
    FindKeepsInv(c, h);
    var (c1, hit) := Find(c, h);
    var c' := AddUsers(c1, hit.value, 1);
    UpdateKeepsInv(c1, hit.value, c'.store[hit.value]);
    hide CacheInv;
  }

  function HitConn(k: Conn, chunk: string, parsed: ParseResult, id: nat): Conn
    requires HasHeading(k.reqIn + chunk)
  {
    k.(b := StartReading(Receive(k.b, chunk), Heading(k.reqIn + chunk), parsed, id),
       reqIn := k.reqIn + chunk, reader := TestOrigin)
  }

  lemma HitPhase(hash: string -> int, k: Conn, chunk: string, id: nat, store: seq<Elem>)
    requires InRequestHeading(k) && Owned(k) && HasHeading(k.reqIn + chunk)
    requires ParsingHeading(Heading(k.reqIn + chunk)).Some?
    requires id < |store| && store[id].hash == hash(Heading(k.reqIn + chunk))
    ensures ConnInv(hash, HitConn(k, chunk, ParsingHeading(Heading(k.reqIn + chunk)).value, id), store)
  {
    hide HasHeading, Heading, ParsingHeading, WriterOf;
    assert InCache(hash, HitConn(k, chunk, ParsingHeading(Heading(k.reqIn + chunk)).value, id), store);
  }

  lemma HitEffect(k: Conn, k': Conn, store: seq<Elem>, store': seq<Elem>, id: nat)
    requires k.user && !k.b.isDataGetCash && !k.b.isAddDataToCash
    requires k'.user && k'.b.isDataGetCash && !k'.b.isAddDataToCash && k'.b.cashElement == Some(id)
    requires |store'| == |store|
    requires forall i | 0 <= i < |store| ::
      Grows(store[i], store'[i]) && SameResponse(store[i], store'[i]) && Spared(store[i], store'[i])
      && store'[i].users == store[i].users + (if i == id then 1 else 0)
    ensures Effect(k, store, k', store')
  {
  }

  /** A hit makes the connection a reader that has read nothing yet. */
  lemma RequestHit(hash: string -> int, k: Conn, c: Cache, chunk: string, connected: bool)
    requires Wf(k.b, c) && InRequestHeading(k) && Owned(k) && HasHeading(k.reqIn + chunk)
    requires CacheInv(c) && HashesAgree(hash, c.store)
    requires ParsingHeading(Heading(k.reqIn + chunk)).Some? && Contains(c, hash(Heading(k.reqIn + chunk)))
    ensures var (k', c') := UserRead(hash, k, c, chunk, connected);
      && CacheInv(c') && HashesAgree(hash, c'.store)
      && ConnInv(hash, k', c'.store) && Effect(k, c.store, k', c'.store)
  {
    UserReadHeading(hash, k, c, chunk, connected);
    HitCache(hash, c, hash(Heading(k.reqIn + chunk)));
    var (k', c') := UserRead(hash, k, c, chunk, connected);
    var id := k'.b.cashElement.value;
    hide Cache.Wf, CacheInv, HashesAgree, UserRead, HasHeading, Heading, ParsingHeading, Contains, Find, AddUsers,
      Grows, SameResponse, ConnInv, Effect;
    assert k' == HitConn(k, chunk, ParsingHeading(Heading(k.reqIn + chunk)).value, id);
    HitPhase(hash, k, chunk, id, c'.store);
    HitEffect(k, k', c.store, c'.store, id);
  }

  function MissConn(k: Conn, chunk: string, parsed: ParseResult): Conn
    requires HasHeading(k.reqIn + chunk)
  {
    k.(b := StartRelay(Receive(k.b, chunk), Heading(k.reqIn + chunk), parsed).(isReadyConnectHttpServer := false),
       reqIn := k.reqIn + chunk)
  }

  function ConnectedConn(k: Conn): Conn {
    k.(b := k.b.(isServerConnect := true), origins := k.origins + 1, server := true, userHasPair := true,
       serverKnowsUser := true)
  }

  lemma MissPhase(k: Conn, chunk: string)
    requires InRequestHeading(k) && Owned(k) && HasHeading(k.reqIn + chunk)
    requires ParsingHeading(Heading(k.reqIn + chunk)).Some?
    ensures var k' := ConnectedConn(MissConn(k, chunk, ParsingHeading(Heading(k.reqIn + chunk)).value));
      InRequest(k') && Owned(k') && !k'.b.isAddDataToCash
  {
    hide HasHeading, ParsingHeading;
  }

  /** A miss either connects to the origin or, if that fails, ends the connection. */
  lemma RequestMiss(hash: string -> int, k: Conn, c: Cache, chunk: string, connected: bool)
    requires Wf(k.b, c) && InRequestHeading(k) && Owned(k) && HasHeading(k.reqIn + chunk)
    requires ParsingHeading(Heading(k.reqIn + chunk)).Some? && !Contains(c, hash(Heading(k.reqIn + chunk)))
    ensures var (k', c') := UserRead(hash, k, c, chunk, connected);
      && c' == c && ConnInv(hash, k', c.store) && Effect(k, c.store, k', c.store)
  {
    UserReadHeading(hash, k, c, chunk, connected);
    MissPhase(k, chunk);
    var k1 := MissConn(k, chunk, ParsingHeading(Heading(k.reqIn + chunk)).value);
    var k' := UserRead(hash, k, c, chunk, connected).0;
    hide Cache.Wf, UserRead, HasHeading, Heading, ParsingHeading, Contains, Find, WriterOf, Effect, InRequest;
    assert k' == if connected then ConnectedConn(k1) else DeleteUser(k1, c).0;
    hide StartRelay;
    assert connected || Dead(k');
    NoEffectOnMiss(k, k', c.store);
    SomePhase(hash, k', c.store);
  }

  lemma NoEffectOnMiss(k: Conn, k': Conn, store: seq<Elem>)
    requires !k.b.isDataGetCash && !k.b.isAddDataToCash
    requires !k'.b.isDataGetCash && !k'.b.isAddDataToCash
    ensures Effect(k, store, k', store)
  {
  }

  /** Bytes after a GET that do not make its heading be parsed again are sent on behind it. */
  lemma TrailingKeeps(hash: string -> int, k: Conn, c: Cache, chunk: string, connected: bool)
    requires Wf(k.b, c) && InRequest(k) && Owned(k) && chunk != "" && k.b.statusClient.WriteRequestHeading?
    requires FindEndHeading(k.b.buf + chunk).None?
    ensures var (k', c') := UserRead(hash, k, c, chunk, connected);
      c' == c && ConnInv(hash, k', c.store) && Effect(k, c.store, k', c.store)
  {
    UserReadTrailing(hash, k, c, chunk, connected);
    var k' := k.(b := Receive(k.b, chunk), reqIn := k.reqIn + chunk);
    FramingIsStable(k.reqIn, chunk);
    Extend(k.reqOut, k.b.buf, k.reqIn, chunk);
    hide Wf, Effect, UserRead, WriterOf, HasHeading, Heading, ParsingHeading, FindEndHeading;
    NoEffect(k, k', c.store);
    assert InRequest(k');
    SomePhase(hash, k', c.store);
  }

  lemma UserReadTrailing(hash: string -> int, k: Conn, c: Cache, chunk: string, connected: bool)
    requires Wf(k.b, c) && k.b.statusClient.WriteRequestHeading? && !k.b.statusHttpServer.WriteResponseBody?
    requires !k.b.isReadyConnectHttpServer && !k.b.isDataGetCash
    requires FindEndHeading(k.b.buf + chunk).None?
    ensures UserRead(hash, k, c, chunk, connected) == (k.(b := Receive(k.b, chunk), reqIn := k.reqIn + chunk), c)
  {
    hide Cache.Wf, FindEndHeading;
  }

  /** A GET that is parsed again and finds neither the cache nor an origin takes the connection down. */
  lemma VainKeeps(hash: string -> int, k: Conn, c: Cache, chunk: string)
    requires Wf(k.b, c) && InRequest(k) && Owned(k) && k.b.statusClient.WriteRequestHeading?
    requires FindEndHeading(k.b.buf + chunk).Some? && ParsesInVain(hash, k.b, c, chunk, false)
    ensures var (k', c') := UserRead(hash, k, c, chunk, false);
      c' == c && ConnInv(hash, k', c.store) && Effect(k, c.store, k', c.store)
  {
    UserReadAgain(hash, k, c, chunk, false);
    var k' := UserRead(hash, k, c, chunk, false).0;
    hide Cache.Wf, UserRead, FindEndHeading, ParsingHeading, Contains, Find, WriterOf, Effect, InRequest;
    hide StartRelay;
    assert Dead(k');
    NoEffectOnMiss(k, k', c.store);
    SomePhase(hash, k', c.store);
  }

  /** What becomes of a heading that is parsed a second time. */
  lemma UserReadAgain(hash: string -> int, k: Conn, c: Cache, chunk: string, connected: bool)
    requires Wf(k.b, c) && InRequest(k) && Owned(k) && k.b.statusClient.WriteRequestHeading?
    requires FindEndHeading(k.b.buf + chunk).Some?
    ensures var b1 := Receive(k.b, chunk);
      var heading := b1.buf[..FindEndHeading(b1.buf).value];
      var k1 := k.(b := b1, reqIn := k.reqIn + chunk);
      && b1.buf == k.b.buf + chunk
      && Wf(b1, c)
      && UserRead(hash, k, c, chunk, connected) ==
          if ParsingHeading(heading).None? then (k1.(b := Reject(b1, heading)), c)
          else
            var parsed := ParsingHeading(heading).value;
            var (c1, hit) := Find(c, hash(heading));
            if hit.Some? then
              (k1.(b := StartReading(b1, heading, parsed, hit.value), reader := TestOrigin), AddUsers(c1, hit.value, 1))
            else
              var b2 := StartRelay(b1, heading, parsed).(isReadyConnectHttpServer := false);
              if connected then
                (k1.(b := b2.(isServerConnect := true), origins := k.origins + 1, server := true, userHasPair := true,
                     serverKnowsUser := true),
                 c)
              else DeleteUser(k1.(b := b2), c)
  {
    hide Cache.Wf, Find, AddUsers, ParsingHeading, FindEndHeading, DeleteUser;
    var b1 := Receive(k.b, chunk);
    var heading := b1.buf[..FindEndHeading(b1.buf).value];
    assert ReadFromSocket(hash, k.b, c, chunk) == OnRequestHeading(hash, b1, c);
    if ParsingHeading(heading).Some? {
      assert OnRequestHeading(hash, b1, c) == OnParsedRequest(hash, b1, c, heading, ParsingHeading(heading).value);
    }
  }

  lemma UserReadKeeps(hash: string -> int, k: Conn, c: Cache, chunk: string, connected: bool)
    requires Wf(k.b, c) && ConnInv(hash, k, c.store) && CacheInv(c) && HashesAgree(hash, c.store)
    requires k.user && k.reader.NoReader? && chunk != ""
    requires InTurn(hash, k, c, UserChunk(0, chunk, connected))
    ensures var (k', c') := UserRead(hash, k, c, chunk, connected);
      && CacheInv(c') && HashesAgree(hash, c'.store)
      && ConnInv(hash, k', c'.store) && Effect(k, c.store, k', c'.store)
  {
    hide Cache.Wf, CacheInv, HashesAgree, ParsingHeading, Heading, Response, ReaderData, HasHeading, Writes, Effect,
      UserRead, Contains;
    assert InRequestHeading(k) || InRequest(k);
    if InRequest(k) && k.b.statusClient.WriteRequestBody? {
      RequestBodyKeeps(hash, k, c, chunk, connected);
    } else if InRequest(k) && FindEndHeading(k.b.buf + chunk).None? {
      TrailingKeeps(hash, k, c, chunk, connected);
    } else if InRequest(k) {
      VainKeeps(hash, k, c, chunk);
    } else if !HasHeading(k.reqIn + chunk) {
      RequestHeadingGrows(hash, k, c, chunk, connected);
    } else if ParsingHeading(Heading(k.reqIn + chunk)).None? {
      RequestRejected(hash, k, c, chunk, connected);
    } else if Contains(c, hash(Heading(k.reqIn + chunk))) {
      RequestHit(hash, k, c, chunk, connected);
    } else {
      RequestMiss(hash, k, c, chunk, connected);
    }
  }

  // ----- Any action -----

  /** Every action of a connection keeps its invariant and the cache's. */
  lemma ActionKeeps(hash: string -> int, k: Conn, c: Cache, a: Action)
    requires Wf(k.b, c) && ConnInv(hash, k, c.store) && CacheInv(c) && HashesAgree(hash, c.store)
    requires !a.Accept? && PossibleAt(k, c, a) && InTurn(hash, k, c, a)
    ensures var (k', c') := ApplyAt(hash, k, c, a);
      && CacheInv(c') && HashesAgree(hash, c'.store)
      && ConnInv(hash, k', c'.store) && Effect(k, c.store, k', c'.store)
  {
    hide Cache.Wf, CacheInv, HashesAgree, ConnInv, Effect, UserRead, ServerRead, DrainToServer, DrainToUser,
      ServerMayDrain, UserMayDrain, DeleteServer, DeleteUser, ReaderStep;
    match a {
      case UserChunk(_, chunk, connected) => UserReadKeeps(hash, k, c, chunk, connected);
      case ServerChunk(_, chunk, connected) => ServerReadKeeps(hash, k, c, chunk, connected);
      case DrainServer(_, taken) => DrainServerKeeps(hash, k, c, taken);
      case DrainUser(_, taken) => DrainUserKeeps(hash, k, c, taken);
      case CloseServer(_) => DeleteServerKeeps(hash, k, c);
      case CloseUser(_) => DeleteUserKeeps(hash, k, c);
      case Look(_) => LookKeeps(hash, k, c);
      case ReadCash(_, ok, taken) => ReaderStepKeeps(hash, k, c, ok, taken);
      case ReaderExit(_) => DeleteUserKeeps(hash, k, c);
    }
  }
}
