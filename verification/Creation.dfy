/** What a cached element begins with, in every history (lab32v2/buffer/BufferImpl.cpp:10-25, 66-109):
    everything in the buffer when the heading of the response is complete, whoever has sent it. */
module Creation {
  import opened Wrappers
  import opened Parser
  import opened CacheSpec
  import opened BufferSpec
  import opened ProxySystem
  import opened ProxyInvariant
  import opened ProxySteps
  import opened ProxyRoles
  import opened ProxyHistories
  import opened Headings
  import opened Ownership
  import opened Agreement

  // ----- The chunk that completes the heading -----

  /** A chunk of either side while the heading of the response is awaited. */
  lemma HeadingChunk(hash: string -> int, k: Conn, c: Cache, chunk: string)
    requires c.Wf() && Role(k, c.store) && CacheInv(c) && HashesAgree(hash, c.store)
    requires k.b.statusHttpServer.WriteResponseHeading?
    ensures Wf(k.b, c)
    ensures var o := ReadFromSocket(hash, k.b, c, chunk);
      && o.b.buf == k.b.buf + chunk && !o.b.isReadyConnectHttpServer && !o.b.isDataGetCash
      && |c.store| <= |o.c.store| <= |c.store| + 1
      && (|o.c.store| > |c.store| <==> o.b.isAddDataToCash)
      && (o.b.statusHttpServer.WriteResponseBody?
          || (o.b == k.b.(buf := o.b.buf) && !o.b.isAddDataToCash && o.c == c))
      && (o.b.isAddDataToCash ==>
            && o.b.cashElement == Some(|c.store|) && o.c.store[|c.store|].content == k.b.buf + chunk)
  {
    hide Cache.Wf, Role, CacheInv, HashesAgree, OnResponseHeading;
    RoleIsWf(k, c);
    HeadingStatus(k, c.store);
    HeadingAnswer(hash, Receive(k.b, chunk), c);
  }

  lemma HeadingStatus(k: Conn, store: seq<Elem>)
    requires Role(k, store) && k.b.statusHttpServer.WriteResponseHeading?
    ensures !k.b.statusClient.WriteRequestHeading? && !k.b.statusClient.WriteRequestBody?
    ensures !k.b.isAddDataToCash && !k.b.isDataGetCash && !k.b.isReadyConnectHttpServer && k.reader.NoReader?
  {
  }

  lemma HeadingAnswer(hash: string -> int, b: Buf, c: Cache)
    requires Wf(b, c) && !b.isDataGetCash && CacheInv(c) && HashesAgree(hash, c.store) && !b.isAddDataToCash
    ensures var o := OnResponseHeading(hash, b, c);
      && o.b.buf == b.buf && o.b.isReadyConnectHttpServer == b.isReadyConnectHttpServer && !o.b.isDataGetCash
      && |c.store| <= |o.c.store| <= |c.store| + 1
      && (|o.c.store| > |c.store| <==> o.b.isAddDataToCash)
      && (o.b.statusHttpServer.WriteResponseBody? || (o.b == b && o.c == c))
      && (o.b.isAddDataToCash ==> o.b.cashElement == Some(|c.store|) && o.c.store[|c.store|].content == b.buf)
  {
    hide Cache.Wf, CacheInv, HashesAgree, FindEndHeading, ParsingResponseHeading, OpenElement, AfterHeading, MarkEnd,
      OnlyEvicted;
    var end := FindEndHeading(b.buf);
    if end.Some? {
      var head := b.buf[..end.value];
      var response := ParsingResponseHeading(head);
      OpenKeeps(hash, b, c, head, response);
      var (c1, offer) := OpenElement(hash, b, c, head, response);
      var b1 := AfterHeading(b, end.value, response, offer);
      SameBytes(b, end.value, response, offer);
      MarkKeepsContent(b1, c1);
    }
  }

  lemma SameBytes(b: Buf, length: nat, response: ParseResult, offer: Option<Option<nat>>)
    requires length <= |b.buf|
    ensures AfterHeading(b, length, response, offer).buf == b.buf
  {
    hide FindEndBody;
  }

  lemma MarkKeepsContent(b: Buf, c: Cache)
    requires Wf(b, c)
    ensures var c' := MarkEnd(b, c);
      |c'.store| == |c.store| && forall id | 0 <= id < |c.store| :: c'.store[id].content == c.store[id].content
  {
    hide Cache.Wf;
  }

  /** A chunk in any other phase. */
  lemma OtherChunk(hash: string -> int, k: Conn, c: Cache, chunk: string)
    requires c.Wf() && Role(k, c.store) && !k.b.statusHttpServer.WriteResponseHeading?
    ensures Wf(k.b, c)
    ensures var o := ReadFromSocket(hash, k.b, c, chunk);
      && |o.c.store| == |c.store| && o.b.isAddDataToCash == k.b.isAddDataToCash
      && o.b.statusHttpServer == k.b.statusHttpServer
  {
    hide Cache.Wf, OnRequestHeading, OnResponseBody;
    RoleIsWf(k, c);
    var b1 := Receive(k.b, chunk);
    if k.b.statusClient.WriteRequestHeading? {
      RequestAnswer(hash, b1, c);
    } else {
      BodyAnswer(b1, c, chunk);
    }
  }

  lemma RequestAnswer(hash: string -> int, b: Buf, c: Cache)
    requires Wf(b, c) && b.statusClient.WriteRequestHeading?
    ensures var o := OnRequestHeading(hash, b, c);
      && |o.c.store| == |c.store| && o.b.isAddDataToCash == b.isAddDataToCash
      && o.b.statusHttpServer == b.statusHttpServer
  {
    hide Cache.Wf, FindEndHeading, ParsingHeading;
  }

  lemma BodyAnswer(b: Buf, c: Cache, chunk: string)
    requires Wf(b, c)
    ensures var o := OnResponseBody(b, c, chunk);
      && |o.c.store| == |c.store| && o.b.isAddDataToCash == b.isAddDataToCash
      && o.b.statusHttpServer == b.statusHttpServer
  {
    hide Cache.Wf, FindEndBody;
  }

  /** What a chunk of the user's leaves of the buffer. */
  lemma UserReadLeaves(hash: string -> int, k: Conn, c: Cache, chunk: string, connected: bool)
    requires Wf(k.b, c)
    ensures var o := ReadFromSocket(hash, k.b, c, chunk);
      var (k', c') := UserRead(hash, k, c, chunk, connected);
      && k'.respIn == k.respIn && |c'.store| == |o.c.store| && k'.b.isAddDataToCash == o.b.isAddDataToCash
      && (k'.b.statusHttpServer == o.b.statusHttpServer || k'.b.statusHttpServer.EndWork?)
      && (!o.b.isReadyConnectHttpServer ==> k'.b == o.b && c' == o.c)
  {
    hide Wf, ReadFromSocket, DeleteUser;
    var o := ReadFromSocket(hash, k.b, c, chunk);
    Cleared(o.b, o.c);
    TeardownLeaves(k.(b := o.b.(isReadyConnectHttpServer := false), reqIn := k.reqIn + chunk), o.c);
  }

  lemma TeardownLeaves(k: Conn, c: Cache)
    requires Wf(k.b, c)
    ensures var (k', c') := DeleteUser(k, c); Leaves(k, c, k', c')
    ensures var (k', c') := DeleteServer(k, c); Leaves(k, c, k', c') && k'.b.statusHttpServer.EndWork?
  {
    hide Cache.Wf;
  }

  predicate Leaves(k: Conn, c: Cache, k': Conn, c': Cache) {
    && k'.respIn == k.respIn && |c'.store| == |c.store| && k'.b.isAddDataToCash == k.b.isAddDataToCash
    && (k'.b.statusHttpServer == k.b.statusHttpServer || k'.b.statusHttpServer.EndWork?)
    && k'.b.buf == k.b.buf && k'.b.isReadyToSend == k.b.isReadyToSend
  }

  lemma OriginReadLeaves(hash: string -> int, k: Conn, c: Cache, chunk: string, connected: bool)
    requires Wf(k.b, c)
    ensures var o := ReadFromSocket(hash, k.b, c, chunk);
      var (k', c') := ServerRead(hash, k, c, chunk, connected);
      && (!k.b.statusHttpServer.EndWork? ==> k'.respIn == k.respIn + chunk)
      && |c'.store| == |o.c.store| && k'.b.isAddDataToCash == o.b.isAddDataToCash
      && (k'.b.statusHttpServer == o.b.statusHttpServer || k'.b.statusHttpServer.EndWork?)
      && (!o.b.isReadyConnectHttpServer ==> k'.b == o.b && c' == o.c)
  {
    hide Wf, ReadFromSocket, LeftByOrigin, ServerRead;
    ServerReadLeaves(hash, k, c, chunk, connected);
    OriginReadCounts(hash, k, c, chunk, connected);
  }

  lemma OriginReadCounts(hash: string -> int, k: Conn, c: Cache, chunk: string, connected: bool)
    requires Wf(k.b, c)
    ensures !k.b.statusHttpServer.EndWork? ==>
      ServerRead(hash, k, c, chunk, connected).0.respIn == k.respIn + chunk
  {
    hide Cache.Wf, ReadFromSocket, LeftByOrigin;
  }

  /** An action that creates an element is the chunk with which the heading of a response is complete,
      and the element begins with all that is in the buffer then. So it agrees with its origin exactly if
      nothing else was in the buffer, and the chunk is the origin's. */
  lemma CreatedAgreesIff(hash: string -> int, k: Conn, c: Cache, a: Action)
    requires c.Wf() && Role(k, c.store) && CacheInv(c) && HashesAgree(hash, c.store)
    requires Wf(k.b, c) && !a.Accept? && PossibleAt(k, c, a)
    requires |ApplyAt(hash, k, c, a).1.store| > |c.store|
    ensures (a.UserChunk? || a.ServerChunk?) && k.b.statusHttpServer.WriteResponseHeading?
    ensures var (k', c') := ApplyAt(hash, k, c, a);
      && k'.b.isAddDataToCash && k'.b.cashElement == Some(|c.store|)
      && c'.store[|c.store|].content == k.b.buf + a.chunk
      && k'.respIn == (if a.ServerChunk? then k.respIn + a.chunk else k.respIn)
      && (c'.store[|c.store|].content == k'.respIn <==>
            if a.ServerChunk? then k.b.buf == k.respIn else k.b.buf + a.chunk == k.respIn)
  {
    hide Wf, Role, UserRead, ServerRead, DeleteUser, DeleteServer, DrainToServer, DrainToUser, LookAt, ReaderStep,
      Cache.Wf, ServerMayDrain, UserMayDrain, CacheInv, HashesAgree, ReadFromSocket;
    if a.UserChunk? || a.ServerChunk? {
      if a.UserChunk? {
        UserReadLeaves(hash, k, c, a.chunk, a.connected);
      } else {
        OriginReadLeaves(hash, k, c, a.chunk, a.connected);
        SameTail(k.b.buf, k.respIn, a.chunk);
      }
      if k.b.statusHttpServer.WriteResponseHeading? {
        HeadingChunk(hash, k, c, a.chunk);
      } else {
        OtherChunk(hash, k, c, a.chunk);
      }
    } else {
      TeardownLeaves(k, c);
    }
  }

  lemma SameTail(s: string, t: string, tail: string)
    ensures s + tail == t + tail <==> s == t
  {
    if s + tail == t + tail {
      assert |s| == |t|;
      assert s == (s + tail)[..|s|] == (t + tail)[..|t|] == t;
    }
  }

  // ----- From the turn to the response on -----

  /** The buffer that awaits the heading, or then the element, is `d` bytes ahead of what the origin has
      sent, and nothing else if `d` is zero; or the response is not being cached. */
  ghost predicate Tracks(k: Conn, store: seq<Elem>, d: nat) {
    if k.b.statusHttpServer.WriteResponseHeading? then
      !k.b.isReadyToSend && |k.b.buf| == |k.respIn| + d && (d == 0 ==> k.b.buf == k.respIn)
    else if k.b.isAddDataToCash then
      && k.b.cashElement.Some? && k.b.cashElement.value < |store|
      && |store[k.b.cashElement.value].content| == |k.respIn| + d
      && (d == 0 ==> store[k.b.cashElement.value].content == k.respIn)
    else Uncached(k)
  }

  predicate Uncached(k: Conn) {
    !k.b.isAddDataToCash && (k.b.statusHttpServer.WriteResponseBody? || k.b.statusHttpServer.EndWork?)
  }

  function Joined(k: Conn, a: Action): nat { if JoinsElement(k, a) then |a.chunk| else 0 }

  lemma HeadingTracks(hash: string -> int, k: Conn, c: Cache, a: Action, d: nat)
    requires c.Wf() && Role(k, c.store) && CacheInv(c) && HashesAgree(hash, c.store) && Wf(k.b, c)
    requires (a.UserChunk? || a.ServerChunk?) && PossibleAt(k, c, a)
    requires k.b.statusHttpServer.WriteResponseHeading? && Tracks(k, c.store, d)
    ensures var (k', c') := ApplyAt(hash, k, c, a); Tracks(k', c'.store, d + Joined(k, a))
  {
    hide Wf, Role, UserRead, ServerRead, Cache.Wf, CacheInv, HashesAgree, ReadFromSocket;
    HeadingChunk(hash, k, c, a.chunk);
    if a.UserChunk? {
      UserReadLeaves(hash, k, c, a.chunk, a.connected);
    } else {
      OriginReadLeaves(hash, k, c, a.chunk, a.connected);
    }
  }

  lemma HeadingWaits(hash: string -> int, k: Conn, c: Cache, a: Action, d: nat)
    requires Role(k, c.store) && Wf(k.b, c) && !a.Accept? && !a.UserChunk? && !a.ServerChunk? && PossibleAt(k, c, a)
    requires k.b.statusHttpServer.WriteResponseHeading? && Tracks(k, c.store, d)
    ensures var (k', c') := ApplyAt(hash, k, c, a); Tracks(k', c'.store, d)
  {
    hide Wf, Role, DeleteUser, DeleteServer, ReaderStep, DrainToServer, DrainToUser, RefreshReady;
    HeadingStatus(k, c.store);
    NothingToDrain(k, c);
    if a.CloseUser? || a.CloseServer? || a.ReaderExit? { TeardownLeaves(k, c); }
  }

  lemma NothingToDrain(k: Conn, c: Cache)
    requires Wf(k.b, c) && !k.b.isDataGetCash && !k.b.isReadyToSend
    ensures RefreshReady(k.b, c) == k.b && !RefreshReady(k.b, c).isReadyToSend
  {
    hide Cache.Wf;
  }

  lemma StaysUncached(hash: string -> int, k: Conn, c: Cache, a: Action)
    requires c.Wf() && Role(k, c.store) && Wf(k.b, c) && !a.Accept? && PossibleAt(k, c, a) && Uncached(k)
    ensures Uncached(ApplyAt(hash, k, c, a).0)
  {
    hide Wf, Role, UserRead, ServerRead, DeleteUser, DeleteServer, DrainToServer, DrainToUser, LookAt, ReaderStep,
      Cache.Wf, ServerMayDrain, UserMayDrain, ReadFromSocket;
    match a {
      case UserChunk(_, chunk, connected) =>
        OtherChunk(hash, k, c, chunk);
        UserReadLeaves(hash, k, c, chunk, connected);
      case ServerChunk(_, chunk, connected) =>
        OtherChunk(hash, k, c, chunk);
        OriginReadLeaves(hash, k, c, chunk, connected);
      case DrainServer(_, taken) => DrainsUncached(k, c, taken);
      case DrainUser(_, taken) => DrainsUncached(k, c, taken);
      case Look(_) => DrainsUncached(k, c, 0);
      case ReadCash(_, ok, taken) => ReadsUncached(k, c, ok, taken);
      case _ => TeardownLeaves(k, c);
    }
  }

  lemma DrainsUncached(k: Conn, c: Cache, taken: nat)
    requires Wf(k.b, c) && Uncached(k)
    ensures Uncached(DrainToServer(k, c, taken)) && Uncached(DrainToUser(k, c, taken)) && Uncached(LookAt(k, c))
  {
    hide Written, Wf, SendBuf, ProofSend, RefreshReady;
    DrainUncached(k.b, c);
  }

  lemma DrainUncached(b: Buf, c: Cache)
    requires Wf(b, c) && !b.isAddDataToCash && (b.statusHttpServer.WriteResponseBody? || b.statusHttpServer.EndWork?)
    ensures var b1 := RefreshReady(b, c);
      && Wf(b1, c) && !b1.isAddDataToCash && b1.statusHttpServer == b.statusHttpServer
      && (!b1.isDataGetCash ==> |SendBuf(b, c, "")| <= |b1.buf|)
      && var b2 := ProofSend(b1, c, SendBuf(b, c, ""));
      && !b2.isAddDataToCash && (b2.statusHttpServer.WriteResponseBody? || b2.statusHttpServer.EndWork?)
  {
    hide Cache.Wf;
  }

  lemma ReadsUncached(k: Conn, c: Cache, ok: bool, taken: nat)
    requires Wf(k.b, c) && k.b.isDataGetCash && Uncached(k)
    ensures Uncached(ReaderStep(k, c, ok, taken))
  {
    hide Wf, SendBuf, Written, NextPc, RefreshReady, ProofSend;
    DrainUncached(k.b, c);
    if k.reader.SendProof? { ProofUncached(k.b, c, k.reader.sent); }
  }

  lemma ProofUncached(b: Buf, c: Cache, sent: string)
    requires Wf(b, c) && b.isDataGetCash
    ensures var r := ProofSend(b, c, sent);
      r.isAddDataToCash == b.isAddDataToCash && r.statusHttpServer == b.statusHttpServer
  {
    hide Cache.Wf;
  }

  /** One action of the connection itself. */
  lemma TracksOn(hash: string -> int, k: Conn, c: Cache, a: Action, d: nat)
    requires c.Wf() && Role(k, c.store) && CacheInv(c) && HashesAgree(hash, c.store) && Wf(k.b, c)
    requires !a.Accept? && PossibleAt(k, c, a) && Tracks(k, c.store, d)
    ensures var (k', c') := ApplyAt(hash, k, c, a); Tracks(k', c'.store, d + Joined(k, a))
  {
    hide Wf, Role, Cache.Wf, CacheInv, HashesAgree, ApplyAt, PossibleAt, Effect;
    if k.b.statusHttpServer.WriteResponseHeading? {
      if a.UserChunk? || a.ServerChunk? {
        HeadingTracks(hash, k, c, a, d);
      } else {
        HeadingWaits(hash, k, c, a, d);
      }
    } else if k.b.isAddDataToCash {
      var (k', c') := ApplyAt(hash, k, c, a);
      WriterHasId(k, c);
      WriterActs(hash, k, c, a);
      ChunksAreNotEmpty(k, c, a);
      ActionDone(hash, k, c, a);
      WriterEffect(k, c.store, k', c'.store);
      WriterHasId(k', c');
    } else {
      StaysUncached(hash, k, c, a);
    }
  }

  /** A connection turns to the response with the drain that empties the buffer, so nothing is left in it
      of the request; it holds what the origin has sent exactly if the origin has not spoken before. */
  lemma TurnsEmpty(hash: string -> int, k: Conn, c: Cache, a: Action)
    requires c.Wf() && Role(k, c.store) && CacheInv(c) && HashesAgree(hash, c.store) && Wf(k.b, c)
    requires !a.Accept? && PossibleAt(k, c, a) && !k.b.statusHttpServer.WriteResponseHeading?
    requires ApplyAt(hash, k, c, a).0.b.statusHttpServer.WriteResponseHeading?
    ensures a.DrainServer? || a.DrainUser?
    ensures var k' := ApplyAt(hash, k, c, a).0;
      k'.b.buf == "" && !k'.b.isReadyToSend && k'.respIn == k.respIn && (k'.b.buf == k'.respIn <==> k.respIn == "")
  {
    hide Wf, Role, UserRead, ServerRead, DeleteUser, DeleteServer, DrainToServer, DrainToUser, LookAt, ReaderStep,
      Cache.Wf, ServerMayDrain, UserMayDrain, CacheInv, HashesAgree, ReadFromSocket;
    match a {
      case UserChunk(_, chunk, connected) =>
        OtherChunk(hash, k, c, chunk);
        UserReadLeaves(hash, k, c, chunk, connected);
      case ServerChunk(_, chunk, connected) =>
        OtherChunk(hash, k, c, chunk);
        OriginReadLeaves(hash, k, c, chunk, connected);
      case DrainServer(_, taken) => DrainTurns(k, c, taken);
      case DrainUser(_, taken) => DrainTurns(k, c, taken);
      case Look(_) => DrainTurns(k, c, 0);
      case ReadCash(_, ok, taken) => ReaderStaysThere(k, c, ok, taken);
      case _ => TeardownLeaves(k, c);
    }
  }

  lemma DrainTurns(k: Conn, c: Cache, taken: nat)
    requires Wf(k.b, c) && !k.b.statusHttpServer.WriteResponseHeading?
    ensures Turned(k, DrainToServer(k, c, taken)) && Turned(k, DrainToUser(k, c, taken))
    ensures LookAt(k, c).b.statusHttpServer == k.b.statusHttpServer
  {
    hide Written, Wf, SendBuf, ProofSend, RefreshReady;
    DrainedTurns(k.b, c);
  }

  predicate Turned(k: Conn, k': Conn) {
    k'.respIn == k.respIn && (k'.b.statusHttpServer.WriteResponseHeading? ==> k'.b.buf == "" && !k'.b.isReadyToSend)
  }

  lemma DrainedTurns(b: Buf, c: Cache)
    requires Wf(b, c) && !b.statusHttpServer.WriteResponseHeading?
    ensures var b1 := RefreshReady(b, c);
      && Wf(b1, c) && b1.statusHttpServer == b.statusHttpServer
      && (!b1.isDataGetCash ==> |SendBuf(b, c, "")| <= |b1.buf|)
      && var b2 := ProofSend(b1, c, SendBuf(b, c, ""));
      b2.statusHttpServer.WriteResponseHeading? ==> b2.buf == "" && !b2.isReadyToSend
  {
    hide Cache.Wf;
  }

  lemma ReaderStaysThere(k: Conn, c: Cache, ok: bool, taken: nat)
    requires Wf(k.b, c) && k.b.isDataGetCash && !k.b.statusHttpServer.WriteResponseHeading?
    ensures ReaderStep(k, c, ok, taken).b.statusHttpServer == k.b.statusHttpServer
  {
    hide Wf, SendBuf, Written, NextPc, RefreshReady, ProofSend;
    DrainedTurns(k.b, c);
    if k.reader.SendProof? { ProofUncached(k.b, c, k.reader.sent); }
  }

  // ----- Over histories -----

  predicate Quiet(k: Conn) { k.b.statusHttpServer.WriteResponseHeading? ==> !k.b.isReadyToSend }

  lemma QuietOn(hash: string -> int, k: Conn, c: Cache, a: Action)
    requires c.Wf() && Role(k, c.store) && CacheInv(c) && HashesAgree(hash, c.store) && Wf(k.b, c)
    requires !a.Accept? && PossibleAt(k, c, a) && Quiet(k)
    ensures Quiet(ApplyAt(hash, k, c, a).0)
  {
    hide Wf, Role, Cache.Wf, CacheInv, HashesAgree, UserRead, ServerRead, DeleteUser, DeleteServer, ReaderStep,
      DrainToServer, DrainToUser, RefreshReady, ReadFromSocket, ApplyAt, PossibleAt;
    if k.b.statusHttpServer.WriteResponseHeading? {
      QuietHeading(hash, k, c, a);
    } else if ApplyAt(hash, k, c, a).0.b.statusHttpServer.WriteResponseHeading? {
      TurnsEmpty(hash, k, c, a);
    }
  }

  lemma QuietHeading(hash: string -> int, k: Conn, c: Cache, a: Action)
    requires c.Wf() && Role(k, c.store) && CacheInv(c) && HashesAgree(hash, c.store) && Wf(k.b, c)
    requires !a.Accept? && PossibleAt(k, c, a) && !k.b.isReadyToSend && k.b.statusHttpServer.WriteResponseHeading?
    ensures Quiet(ApplyAt(hash, k, c, a).0)
  {
    hide Wf, Role, Cache.Wf, CacheInv, HashesAgree, UserRead, ServerRead, DeleteUser, DeleteServer, ReaderStep,
      DrainToServer, DrainToUser, RefreshReady, ReadFromSocket, LookAt;
    HeadingStatus(k, c.store);
    if a.UserChunk? {
      HeadingChunk(hash, k, c, a.chunk);
      UserReadLeaves(hash, k, c, a.chunk, a.connected);
    } else if a.ServerChunk? {
      HeadingChunk(hash, k, c, a.chunk);
      OriginReadLeaves(hash, k, c, a.chunk, a.connected);
    } else {
      QuietWaits(hash, k, c, a);
    }
  }

  lemma QuietWaits(hash: string -> int, k: Conn, c: Cache, a: Action)
    requires Wf(k.b, c) && !k.b.isDataGetCash && !k.b.isReadyToSend && k.b.statusHttpServer.WriteResponseHeading?
    requires !a.Accept? && !a.UserChunk? && !a.ServerChunk? && PossibleAt(k, c, a)
    ensures Quiet(ApplyAt(hash, k, c, a).0)
  {
    hide Wf, DeleteUser, DeleteServer, ReaderStep, DrainToServer, DrainToUser, RefreshReady;
    NothingToDrain(k, c);
    if a.CloseUser? || a.CloseServer? || a.ReaderExit? { TeardownLeaves(k, c); }
  }

  lemma {:induction false} HistoryIsQuiet(hash: string -> int, run: seq<Sys>, actions: seq<Action>, n: nat, w: nat)
    requires IsHistory(hash, run, actions) && n < |run| && w < |run[n].conns|
    ensures Quiet(run[n].conns[w])
  {
    hide Possible, Apply, BaseInv, Quiet;
    if n > 0 {
      var s, a := run[n - 1], actions[n - 1];
      assert run[n - 1 + 1] == Apply(hash, s, a);
      HistoryBase(hash, run, actions, n - 1);
      if w < |s.conns| {
        HistoryIsQuiet(hash, run, actions, n - 1, w);
        StepIsQuiet(hash, s, a, w);
      } else {
        NewConnIsFresh(hash, s, a, w);
        AcceptedIsQuiet();
      }
    }
  }

  lemma AcceptedIsQuiet()
    ensures Quiet(ACCEPTED)
  {
  }

  lemma StepIsQuiet(hash: string -> int, s: Sys, a: Action, w: nat)
    requires BaseInv(hash, s) && Possible(s, a) && w < |s.conns| && Quiet(s.conns[w])
    ensures w < |Apply(hash, s, a).conns| && Quiet(Apply(hash, s, a).conns[w])
  {
    hide CacheInv, RolesInv, HashesAgree, CountsAgree, WritersAgree, ApplyAt, PossibleAt, Wf, Role, Quiet;
    if !a.Accept? && a.i == w {
      PointersAreGood(hash, s, w);
      CacheIsWf(hash, s);
      QuietOn(hash, s.conns[w], s.cache, a);
    }
  }

  /** One action of anybody. */
  lemma StepTracks(hash: string -> int, s: Sys, a: Action, w: nat, d: nat)
    requires BaseInv(hash, s) && Possible(s, a) && w < |s.conns| && Tracks(s.conns[w], s.cache.store, d)
    ensures var s' := Apply(hash, s, a);
      && w < |s'.conns|
      && Tracks(s'.conns[w], s'.cache.store, d + (if JoinsAt(s, a, w) then |a.chunk| else 0))
  {
    hide CacheInv, RolesInv, HashesAgree, CountsAgree, WritersAgree, ApplyAt, PossibleAt, Wf, Role, Tracks, Effect,
      Grows, SameResponse;
    if !a.Accept? {
      PointersAreGood(hash, s, w);
      CacheIsWf(hash, s);
      if a.i == w {
        TracksOn(hash, s.conns[w], s.cache, a, d);
      } else {
        ActionOnSystem(hash, s, a);
        var (k, c) := ApplyAt(hash, s.conns[a.i], s.cache, a);
        OtherWriterSpared(s, a.i, k, c.store, w);
        OthersTrack(s.conns[w], s.cache.store, c.store, d);
      }
    }
  }

  lemma OthersTrack(k: Conn, store: seq<Elem>, store': seq<Elem>, d: nat)
    requires Tracks(k, store, d) && |store| <= |store'|
    requires k.b.isAddDataToCash && k.b.cashElement.Some? && k.b.cashElement.value < |store| ==>
      SameResponse(store[k.b.cashElement.value], store'[k.b.cashElement.value])
    ensures Tracks(k, store', d)
  {
  }

  lemma {:induction false} HistoryTracks(hash: string -> int, run: seq<Sys>, actions: seq<Action>, m: nat, n: nat,
                                         w: nat)
    requires IsHistory(hash, run, actions) && m <= n < |run| && w < |run[m].conns|
    requires Tracks(run[m].conns[w], run[m].cache.store, 0)
    ensures w < |run[n].conns|
    ensures Tracks(run[n].conns[w], run[n].cache.store, Foreign(run, actions, m, n, w))
    decreases n - m
  {
    hide Possible, Apply, BaseInv, Tracks, JoinsAt;
    if m < n {
      HistoryTracks(hash, run, actions, m, n - 1, w);
      HistoryBase(hash, run, actions, n - 1);
      assert run[n - 1 + 1] == Apply(hash, run[n - 1], actions[n - 1]);
      StepTracks(hash, run[n - 1], actions[n - 1], w, Foreign(run, actions, m, n - 1, w));
    }
  }

  /** In every history: if a connection awaits the heading of a response and its buffer holds what the
      origin has sent and nothing else, then the element it may cache later holds exactly what the origin
      has sent, from its creation on, as long as the client sends nothing while the heading or the cached body
      arrives, and no longer; whatever anybody else sends. */
  lemma AgreesIffClientSilent(hash: string -> int, run: seq<Sys>, actions: seq<Action>, m: nat, n: nat, w: nat)
    requires IsHistory(hash, run, actions) && m <= n < |run| && w < |run[m].conns|
    requires var k := run[m].conns[w]; k.b.statusHttpServer.WriteResponseHeading? && k.b.buf == k.respIn
    ensures w < |run[n].conns|
    ensures var k, store := run[n].conns[w], run[n].cache.store;
      k.b.isAddDataToCash ==>
        && k.b.cashElement.Some? && k.b.cashElement.value < |store|
        && (store[k.b.cashElement.value].content == k.respIn <==> Foreign(run, actions, m, n, w) == 0)
  {
    HistoryIsQuiet(hash, run, actions, m, w);
    HistoryTracks(hash, run, actions, m, n, w);
    HistoryBase(hash, run, actions, n);
    PointersAreGood(hash, run[n], w);
    hide IsHistory, Foreign, BaseInv, Wf;
    if run[n].conns[w].b.isAddDataToCash { WriterHasId(run[n].conns[w], run[n].cache); }
    hide Role;
  }
}
