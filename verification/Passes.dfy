/** What a pass of the handler does to the sockets and the endpoints
    (lab32v2/server/HandlerOneClientImpl.cpp:60-179), in terms of the bytes that wait and not of the
    functions that compute it: who is written what, and who is removed exactly when. */
module Passes {
  import opened Wrappers
  import opened Parser
  import opened CacheSpec
  import opened BufferSpec
  import opened ProxySystem
  import opened ProxyInvariant
  import opened ProxySteps
  import opened Deliveries
  import opened RelayTheorems
  import opened HandlerSpec

  /** What one write takes from a buffer. */
  function NextChunk(buf: string): string { buf[..Min(|buf|, BUF_SIZE - 1)] }

  /** One write of `chunk` of which the socket takes what `outcome` says, nothing if it is negative. */
  predicate WrittenTo(w: Wire, chunk: string, outcome: int, w': Wire) {
    var taken := if outcome < 0 then 0 else if outcome < |chunk| then outcome else |chunk|;
    w'.sent == w.sent + chunk[..taken] && w'.cuts == (if taken < |chunk| then w.cuts + 1 else w.cuts)
  }

  /** Bytes wait for the client, or for the origin. A response whose heading is not complete yet is held
      back. */
  predicate Waits(k: Conn) {
    k.b.buf != "" && (k.b.statusClient.ReadResponse? ==> k.b.error || HasHeading(k.respIn))
  }

  /** Nothing has been read or written, but for what is said about the client's side. */
  predicate SameOrigin(k: Conn, k': Conn) {
    && k'.reqIn == k.reqIn && k'.respIn == k.respIn && k'.late == k.late
    && k'.reqOut == k.reqOut && k'.reqWire == k.reqWire && k'.cashOut == k.cashOut && k'.cashWire == k.cashWire
  }

  predicate SameUser(k: Conn, k': Conn) {
    && k'.reqIn == k.reqIn && k'.respIn == k.respIn && k'.late == k.late
    && k'.respOut == k.respOut && k'.respWire == k.respWire && k'.cashOut == k.cashOut && k'.cashWire == k.cashWire
  }

  predicate SameBytes(k: Conn, k': Conn) {
    SameOrigin(k, k') && k'.b.buf == k.b.buf && k'.respOut == k.respOut && k'.respWire == k.respWire
  }

  // ----- What the invariant says before a pass -----

  /** The flag that the handler asks for, and the statuses that go with it, of a client that is relayed. */
  lemma UserFlags(hash: string -> int, k: Conn, c: Cache)
    requires Wf(k.b, c) && ConnInv(hash, k, c.store) && k.user && !k.b.isDataGetCash
    ensures RefreshReady(k.b, c) == k.b && k.reader.NoReader?
    ensures !k.b.statusClient.EndWork? ==> (k.b.isReadyToSend <==>
        Waits(k) && (k.b.statusClient.WriteRequestHeading? ==> k.b.isEndSend))
    ensures k.b.statusHttpServer.EndWork? && k.b.statusClient.WriteRequestHeading? ==> k.b.isEndSend
    ensures k.b.statusClient.ReadResponse? && Waits(k) && k.b.statusHttpServer.ReadRequest? ==>
      k.b.error && k.b.isEndSend
    ensures k.b.error ==> k.b.statusHttpServer.ReadRequest?
  {
    UserPhases(hash, k, c.store);
    hide ConnInv, HasHeading, Heading, Response, ParsingHeading, Cache.Wf, RequestFramed, Relayed, Writes, ReaderData,
      WriterOf;
    assert Owned(k) by { OwnedOf(hash, k, c.store); }
  }

  lemma OwnedOf(hash: string -> int, k: Conn, store: seq<Elem>)
    requires ConnInv(hash, k, store)
    ensures Owned(k)
  {
    hide Owned, InSomePhase, Writes;
  }

  // ----- The user's pass -----

  lemma DrainedUser(k: Conn, c: Cache, taken: nat)
    requires Wf(k.b, c) && !k.b.isDataGetCash && k.b.buf != ""
    ensures var k', chunk := DrainToUser(k, c, taken), NextChunk(k.b.buf);
      && Wf(k'.b, c) && !k'.b.isDataGetCash && RefreshReady(k'.b, c) == k'.b && k'.user == k.user
      && k'.respOut == k.respOut + chunk && k'.b.buf == k.b.buf[|chunk|..] && SameOrigin(k, k')
      && k'.respWire == Written(k.respWire, chunk, taken)
      && (k'.b.buf != "" ==> k'.b.isReadyToSend == k.b.isReadyToSend && k'.b.statusHttpServer == k.b.statusHttpServer)
      && (k'.b.buf == "" && !k.b.isEndSend ==>
            !k'.b.isReadyToSend && k'.b.statusHttpServer == k.b.statusHttpServer)
      && (k'.b.buf == "" && k.b.isEndSend && k.b.statusClient.ReadResponse? ==>
            if k.b.error then k'.b.statusHttpServer == k.b.statusHttpServer && k'.b.isReadyToSend == k.b.isReadyToSend
            else if k.b.statusHttpServer.ReadRequest? then !k'.b.isReadyToSend
            else k'.b.statusHttpServer.EndWork? && !k'.b.isReadyToSend)
  {
    hide Cache.Wf;
  }

  lemma Teardown(k: Conn, c: Cache)
    requires Wf(k.b, c)
    ensures var k' := DeleteUser(k, c).0; SameBytes(k, k') && !k'.user
    ensures var k' := DeleteServer(k, c).0; SameBytes(k, k') && !k'.server && k'.user == k.user
  {
    hide Wf, LeftByOrigin, LeftByReader;
  }

  lemma Looked(k: Conn, c: Cache)
    requires Wf(k.b, c)
    ensures var k' := LookAt(k, c); SameBytes(k, k') && k'.user == k.user && k'.server == k.server
  {
    hide Cache.Wf;
  }

  lemma TakenIs(w: Wire, chunk: string, outcome: int)
    ensures WrittenTo(w, chunk, outcome, Written(w, chunk, Taken(outcome)))
  {
  }

  lemma NothingWritten(w: Wire, outcome: int)
    ensures WrittenTo(w, "", outcome, w)
  {
    assert w.sent + "" == w.sent;
  }

  /** Whether a pass that finds the client's socket writable removes the client, given what it has written
      and what it has left: a client whose exchange is over, or whose origin is gone, once nothing waits. */
  predicate RemovesUser(k: Conn, chunk: string, left: string) {
    || k.b.statusClient.EndWork?
    || (if chunk == "" then k.b.statusHttpServer.EndWork? && !Waits(k)
        else left == "" && (k.b.statusHttpServer.EndWork? || (k.b.isEndSend && !k.b.error)))
  }

  /** A pass over a client whose socket can be written to: if it awaits a response and bytes of it wait, the
      next of them, as many as one write takes, are counted as sent and leave the buffer, and the socket
      takes of them what the write says; otherwise nothing is sent. */
  lemma UserPassWrites(hash: string -> int, k: Conn, c: Cache, outcome: int, k': Conn, c': Cache)
    requires Wf(k.b, c) && ConnInv(hash, k, c.store) && k.user && !k.b.isDataGetCash
    requires (k', c') == ServeUser(hash, k, c, Writable(outcome))
    ensures var chunk := if k.b.statusClient.ReadResponse? && Waits(k) then NextChunk(k.b.buf) else "";
      && (k.b.statusClient.ReadResponse? && Waits(k) ==> chunk != "")
      && k'.respOut == k.respOut + chunk && k.b.buf == chunk + k'.b.buf && SameOrigin(k, k')
      && WrittenTo(k.respWire, chunk, outcome, k'.respWire)
      && (k'.user <==> !RemovesUser(k, chunk, k'.b.buf))
  {
    hide Wf, ConnInv, DeleteUser, DrainToUser, LookAt, Waits, SendBuf, ProofSend, RefreshReady, Written, NextChunk,
      WrittenTo;
    UserFlags(hash, k, c);
    NothingWritten(k.respWire, outcome);
    Teardown(k, c);
    Looked(k, c);
    assert "" + k.b.buf == k.b.buf && k.respOut + "" == k.respOut;
    if k.b.statusClient.ReadResponse? && Waits(k) {
      WaitingBytes(k);
      UserPassDrains(hash, k, c, outcome);
    }
  }

  lemma WaitingBytes(k: Conn)
    requires Waits(k)
    ensures k.b.buf != "" && NextChunk(k.b.buf) != ""
    ensures k.b.buf == NextChunk(k.b.buf) + k.b.buf[|NextChunk(k.b.buf)|..]
  {
  }

  lemma UserPassDrains(hash: string -> int, k: Conn, c: Cache, outcome: int)
    requires Wf(k.b, c) && ConnInv(hash, k, c.store) && k.user && !k.b.isDataGetCash
    requires k.b.statusClient.ReadResponse? && Waits(k)
    ensures var k', chunk := ServeUser(hash, k, c, Writable(outcome)).0, NextChunk(k.b.buf);
      && k'.respOut == k.respOut + chunk && k'.b.buf == k.b.buf[|chunk|..] && SameOrigin(k, k')
      && WrittenTo(k.respWire, chunk, outcome, k'.respWire)
      && (k'.user <==> !(k'.b.buf == "" && (k.b.statusHttpServer.EndWork? || (k.b.isEndSend && !k.b.error))))
  {
    hide Wf, ConnInv, DeleteUser, DrainToUser, LookAt, Waits, SendBuf, ProofSend, RefreshReady, Written, NextChunk,
      WrittenTo, HasHeading;
    UserFlags(hash, k, c);
    WaitingBytes(k);
    var k1 := DrainToUser(k, c, Taken(outcome));
    DrainedUser(k, c, Taken(outcome));
    TakenIs(k.respWire, NextChunk(k.b.buf), outcome);
    Teardown(k1, c);
    Looked(k1, c);
  }

  /** A hang-up, or a read that returns nothing, removes the client whatever the state it is in, and with it
      its origin unless a response is being cached; a reader is taken off its element. */
  lemma UserPassEnds(hash: string -> int, k: Conn, c: Cache, e: Event, k': Conn, c': Cache)
    requires Wf(k.b, c) && k.user && (e.HungUp? || (e.Received? && e.chunk == ""))
    requires (k', c') == ServeUser(hash, k, c, e)
    ensures !k'.user && k'.b.statusClient.EndWork? && !k'.b.isClientConnect && SameBytes(k, k')
    ensures |c'.store| == |c.store| && c'.list == c.list
    ensures forall id | 0 <= id < |c.store| ::
      c'.store[id].users == c.store[id].users - (if k.b.isDataGetCash && k.b.cashElement == Some(id) then 1 else 0)
    ensures Owned(k) ==>
      && (k'.server <==> k.server && k.b.isAddDataToCash)
      && k'.frees == (if k'.server then 0 else 1)
      && (k.server && !k'.server ==> k'.b.statusHttpServer.EndWork?)
  {
    hide Cache.Wf;
  }

  /** A pass without a chunk, a hang-up or room to write sends nothing, and removes the client exactly if
      its exchange is over, or its origin is gone and nothing waits for it. */
  lemma UserPassIdles(hash: string -> int, k: Conn, c: Cache, k': Conn, c': Cache)
    requires Wf(k.b, c) && ConnInv(hash, k, c.store) && k.user && !k.b.isDataGetCash
    requires (k', c') == ServeUser(hash, k, c, Nothing)
    ensures SameBytes(k, k')
    ensures k'.user <==> !(k.b.statusClient.EndWork? || (k.b.statusHttpServer.EndWork? && !Waits(k)))
  {
    hide Wf, ConnInv, DeleteUser, LookAt, Waits, RefreshReady;
    UserFlags(hash, k, c);
    Teardown(k, c);
    Looked(k, c);
  }

  /** A read that fails leaves everything as it is; the same holds of an origin. */
  lemma FailedReadIsIgnored(hash: string -> int, k: Conn, c: Cache)
    requires Wf(k.b, c)
    ensures ServeUser(hash, k, c, ReadFailed) == (k, c) && ServeOrigin(hash, k, c, ReadFailed) == (k, c)
  {
  }

  /** The closing rules on the fields of a buffer, in cache mode or not (lines 124-137). */
  predicate ClosesUser(b: Buf, c: Cache)
    requires Wf(b, c)
  {
    || b.statusClient.EndWork?
    || (b.statusHttpServer.EndWork? && !b.isReadyToSend
        && (b.isDataGetCash ==> |c.store[b.cashElement.value].content| <= b.countByteReadFromCash))
  }

  /** The closing rules for the origin (lines 120-143). */
  predicate ClosesOrigin(b: Buf) {
    b.statusHttpServer.EndWork? || (b.statusClient.EndWork? && (b.isEndSend || !b.isAddDataToCash))
  }

  /** A pass with a chunk from the client: the chunk is read, nothing is sent, and the loop ends if the
      client has become a cache reader or is gone for want of an origin; else it is removed exactly if the
      closing rules say so of the buffer after the chunk. */
  lemma UserPassReads(hash: string -> int, k: Conn, c: Cache, chunk: string, connected: bool, k': Conn, c': Cache)
    requires Wf(k.b, c) && k.user && k.reader.NoReader? && chunk != ""
    requires (k', c') == ServeUser(hash, k, c, Received(chunk, connected))
    ensures var e := Received(chunk, connected);
      var (k1, c1) := UserRead(hash, k, c, chunk, connected);
      && k'.reqIn == k.reqIn + chunk && k'.respIn == k.respIn && k'.reqOut == k.reqOut && k'.respOut == k.respOut
      && k'.reqWire == k.reqWire && k'.respWire == k.respWire
      && (EndsLoop(hash, k, c, e) <==> k1.reader.TestOrigin? || !k1.user)
      && (if EndsLoop(hash, k, c, e) then k' == k1 && c' == c1
          else Wf(k1.b, c1) && (k'.user <==> !ClosesUser(k1.b, c1)) && k'.b.buf == k1.b.buf)
  {
    hide Cache.Wf, UserRead, DeleteUser, LookAt, ReadFromSocket;
    UserReadKeepsWf(hash, k, c, chunk, connected);
    UserReadLogs(hash, k, c, chunk, connected);
    var (k1, c1) := UserRead(hash, k, c, chunk, connected);
    if k1.user {
      Teardown(k1, c1);
      Looked(k1, c1);
    }
  }

  lemma UserReadLogs(hash: string -> int, k: Conn, c: Cache, chunk: string, connected: bool)
    requires Wf(k.b, c)
    ensures var k' := UserRead(hash, k, c, chunk, connected).0;
      && k'.reqIn == k.reqIn + chunk && k'.respIn == k.respIn && k'.reqOut == k.reqOut && k'.respOut == k.respOut
      && k'.reqWire == k.reqWire && k'.respWire == k.respWire
  {
    hide Wf, ReadFromSocket, UserRead;
    UserReadWritesNothing(hash, k, c, chunk, connected);
    UserReadCounts(hash, k, c, chunk, connected);
  }

  lemma UserReadCounts(hash: string -> int, k: Conn, c: Cache, chunk: string, connected: bool)
    requires Wf(k.b, c)
    ensures var k' := UserRead(hash, k, c, chunk, connected).0; k'.reqIn == k.reqIn + chunk && k'.respIn == k.respIn
  {
    hide Wf, ReadFromSocket, DeleteUser, SameBytes;
    var o := ReadFromSocket(hash, k.b, c, chunk);
    Cleared(o.b, o.c);
    var k1 := k.(b := o.b.(isReadyConnectHttpServer := false), reqIn := k.reqIn + chunk);
    Teardown(k1, o.c);
    SameRead(k1, DeleteUser(k1, o.c).0);
  }

  lemma SameRead(k: Conn, k': Conn)
    requires SameBytes(k, k')
    ensures k'.reqIn == k.reqIn && k'.respIn == k.respIn
  {
  }

  // ----- The origin's pass -----

  /** A hang-up, or a read that returns nothing, removes the origin whatever the state it is in: its side is
      over, and the element of a response that is being cached learns that its origin has left. */
  lemma OriginPassEnds(hash: string -> int, k: Conn, c: Cache, e: Event, k': Conn, c': Cache)
    requires Wf(k.b, c) && k.server && (e.HungUp? || (e.Received? && e.chunk == ""))
    requires (k', c') == ServeOrigin(hash, k, c, e)
    ensures !k'.server && k'.b.statusHttpServer.EndWork? && !k'.b.isServerConnect && SameBytes(k, k')
    ensures k'.user == k.user && k'.b.statusClient == k.b.statusClient
    ensures |c'.store| == |c.store| && c'.list == c.list
    ensures forall id | 0 <= id < |c.store| ::
      && c'.store[id].content == c.store[id].content && c'.store[id].users == c.store[id].users
      && c'.store[id].serverConnected
           == (c.store[id].serverConnected && !(k.b.isAddDataToCash && k.b.cashElement == Some(id)))
    ensures Owned(k) ==> !k'.userHasPair && k'.frees == (if k.user then 0 else 1)
  {
    hide Cache.Wf;
  }

  lemma OriginFlags(hash: string -> int, k: Conn, c: Cache)
    requires Wf(k.b, c) && ConnInv(hash, k, c.store) && k.server
    ensures RefreshReady(k.b, c) == k.b && !k.b.isDataGetCash
    ensures k.b.statusHttpServer.ReadRequest? ==> (k.b.isReadyToSend <==> k.b.buf != "")
    ensures ClosesOrigin(k.b) <==> k.b.statusHttpServer.EndWork? || (!k.user && Complete(k.respIn))
    ensures k.b.statusHttpServer.ReadRequest? ==>
      !k.b.error && !k.b.statusClient.EndWork? && !k.b.statusClient.ReadResponse?
  {
    ServerPhases(hash, k, c.store);
    hide ConnInv, HasHeading, Heading, Response, ParsingHeading, Cache.Wf, RequestFramed, Relayed, ReaderData;
  }

  lemma DrainedOrigin(k: Conn, c: Cache, taken: nat)
    requires Wf(k.b, c) && !k.b.isDataGetCash && k.b.statusHttpServer.ReadRequest? && !k.b.error
    ensures var k', chunk := DrainToServer(k, c, taken), NextChunk(k.b.buf);
      && k'.server == k.server && k'.user == k.user
      && k'.reqOut == k.reqOut + chunk && k'.b.buf == k.b.buf[|chunk|..] && SameUser(k, k')
      && k'.reqWire == Written(k.reqWire, chunk, taken)
      && (if k'.b.buf == "" && k.b.isEndSend then
            k'.b.statusHttpServer.WriteResponseHeading? && k'.b.statusClient.ReadResponse?
          else k'.b.statusHttpServer.ReadRequest? && k'.b.statusClient == k.b.statusClient)
  {
    hide Cache.Wf;
  }

  /** A pass over an origin whose socket can be written to: while it awaits the request, the next bytes that
      wait, as many as one write takes, are counted as sent and leave the buffer, and the socket takes of
      them what the write says; with the last byte of the whole request the response is awaited. Otherwise
      nothing is sent. It is removed exactly if its side is over, or its client is gone and the response is
      complete. */
  lemma OriginPassWrites(hash: string -> int, k: Conn, c: Cache, outcome: int, k': Conn, c': Cache)
    requires Wf(k.b, c) && ConnInv(hash, k, c.store) && k.server
    requires (k', c') == ServeOrigin(hash, k, c, Writable(outcome))
    ensures var chunk := if k.b.statusHttpServer.ReadRequest? then NextChunk(k.b.buf) else "";
      && (k.b.statusHttpServer.ReadRequest? && k.b.buf != "" ==> chunk != "")
      && k'.reqOut == k.reqOut + chunk && k.b.buf == chunk + k'.b.buf && SameUser(k, k')
      && WrittenTo(k.reqWire, chunk, outcome, k'.reqWire)
      && (k'.server <==> !(k.b.statusHttpServer.EndWork? || (!k.user && Complete(k.respIn))))
      && (chunk != "" ==>
            (k'.b.statusHttpServer.WriteResponseHeading? <==> k'.b.buf == "" && k.b.isEndSend))
  {
    hide Wf, ConnInv, DeleteServer, DrainToServer, LookAt, SendBuf, ProofSend, RefreshReady, Written, NextChunk,
      WrittenTo, Complete;
    OriginFlags(hash, k, c);
    NothingWritten(k.reqWire, outcome);
    Teardown(k, c);
    Looked(k, c);
    NextOf(k.b.buf);
    assert "" + k.b.buf == k.b.buf && k.reqOut + "" == k.reqOut;
    if k.b.statusHttpServer.ReadRequest? && k.b.buf != "" {
      DrainedOrigin(k, c, Taken(outcome));
      TakenIs(k.reqWire, NextChunk(k.b.buf), outcome);
    }
  }

  lemma NextOf(buf: string)
    ensures buf == NextChunk(buf) + buf[|NextChunk(buf)|..]
    ensures NextChunk(buf) == "" <==> buf == ""
  {
  }

  /** A pass without a chunk or a hang-up, in any state whatever: the origin is removed exactly if the
      closing rules say so of the buffer, and then no matter whether it could be written to. */
  lemma OriginPassCloses(hash: string -> int, k: Conn, c: Cache, e: Event, k': Conn, c': Cache)
    requires Wf(k.b, c) && k.server && (e.Nothing? || e.Writable?) && (k', c') == ServeOrigin(hash, k, c, e)
    ensures k'.server <==> !ClosesOrigin(k.b)
    ensures e.Nothing? || ClosesOrigin(k.b) ==> SameBytes(k, k')
  {
    hide Wf, DeleteServer, LookAt, SendBuf, ProofSend, RefreshReady, Written;
    Teardown(k, c);
    Looked(k, c);
  }

  /** A pass with a chunk from the origin: the chunk is read, nothing is sent, and the origin is removed if
      it was taken for a client that asks for an origin in vain, or exactly if the closing rules say so of
      the buffer after the chunk. */
  lemma OriginPassReads(hash: string -> int, k: Conn, c: Cache, chunk: string, connected: bool, k': Conn, c': Cache)
    requires Wf(k.b, c) && k.server && chunk != ""
    requires (k', c') == ServeOrigin(hash, k, c, Received(chunk, connected))
    ensures k'.respIn + k'.late == (if k.b.statusHttpServer.EndWork? then k.respIn + (k.late + chunk)
                                    else k.respIn + chunk + k.late)
    ensures k'.reqIn == k.reqIn && k'.reqOut == k.reqOut && k'.respOut == k.respOut
      && k'.reqWire == k.reqWire && k'.respWire == k.respWire
    ensures var (k1, c1) := ServerRead(hash, k, c, chunk, connected);
      && (k'.server <==> k1.server && !ClosesOrigin(k1.b)) && k'.b.buf == k1.b.buf
  {
    hide Cache.Wf, ServerRead, DeleteServer, LookAt, ReadFromSocket;
    ServerReadKeepsWf(hash, k, c, chunk, connected);
    ServerReadLogs(hash, k, c, chunk, connected);
    var (k1, c1) := ServerRead(hash, k, c, chunk, connected);
    if k1.server { Teardown(k1, c1); }
  }

  lemma ServerReadLogs(hash: string -> int, k: Conn, c: Cache, chunk: string, connected: bool)
    requires Wf(k.b, c)
    ensures var k' := ServerRead(hash, k, c, chunk, connected).0;
      && k'.respIn == (if k.b.statusHttpServer.EndWork? then k.respIn else k.respIn + chunk)
      && k'.late == (if k.b.statusHttpServer.EndWork? then k.late + chunk else k.late)
      && k'.reqIn == k.reqIn && k'.reqOut == k.reqOut && k'.respOut == k.respOut
      && k'.reqWire == k.reqWire && k'.respWire == k.respWire
  {
    hide Cache.Wf, ReadFromSocket, LeftByOrigin;
  }

  // ----- Where a request goes -----

  /** What a chunk in turn makes of a request whose heading is still being read: an incomplete heading is
      kept; one that does not parse is answered with the error text; one that is cached makes the client a
      counted reader of the element, and no origin is asked; any other is relayed to an origin, or takes the
      client away if none is found. */
  lemma RequestGoesWhere(hash: string -> int, k: Conn, c: Cache, chunk: string, connected: bool, k': Conn, c': Cache)
    requires Wf(k.b, c) && CacheInv(c) && HashesAgree(hash, c.store) && InRequestHeading(k) && Owned(k)
    requires (k', c') == UserRead(hash, k, c, chunk, connected)
    ensures var R := k.reqIn + chunk;
      if !HasHeading(R) then
        && c' == c && k'.user && !k'.server && k'.b.buf == R
        && k'.b.statusClient.WriteRequestHeading? && k'.reader.NoReader?
      else if ParsingHeading(Heading(R)).None? then
        && c' == c && k'.user && !k'.server && k'.b.buf == INCORRECT_HEADING
        && k'.b.error && k'.b.statusClient.ReadResponse?
      else if exists id: nat :: id in c.list && c.store[id].hash == hash(Heading(R)) then
        && k'.user && !k'.server && k'.b.isDataGetCash && k'.reader.TestOrigin? && k'.b.cashElement.Some?
        && var id := k'.b.cashElement.value;
        && id in c.list && c.store[id].hash == hash(Heading(R)) && |c'.store| == |c.store|
        && (forall x | 0 <= x < |c.store| :: c'.store[x].users == c.store[x].users + (if x == id then 1 else 0))
      else
        && c' == c && !k'.b.isDataGetCash && (k'.user <==> connected) && (k'.server <==> connected)
        && (connected ==> k'.b.buf == R && k'.b.statusHttpServer.ReadRequest? && k'.reqOut == "")
  {
    hide Cache.Wf, CacheInv, HashesAgree, FindEndHeading, ParsingHeading, UserRead, Find, AddUsers, Contains, Grows,
      SameResponse, Spared;
    UserReadHeading(hash, k, c, chunk, connected);
    var R := k.reqIn + chunk;
    if HasHeading(R) && ParsingHeading(Heading(R)).Some? {
      ListedIff(c, hash(Heading(R)));
      if Contains(c, hash(Heading(R))) { HitCache(hash, c, hash(Heading(R))); }
    }
  }

  lemma ListedIff(c: Cache, h: int)
    requires CacheInv(c)
    ensures c.Wf() && (Contains(c, h) <==> exists id: nat :: id in c.list && c.store[id].hash == h)
    ensures Find(c, h).1.Some? ==> Find(c, h).1.value in c.list && c.store[Find(c, h).1.value].hash == h
    ensures Find(c, h).1.Some? <==> Contains(c, h)
  {
    hide RefundsBounded, OrderedByTouch, OnePerHash, ListedIffLive;
    var p := Scan(c, h, 0);
    if p < |c.list| { assert c.list[p] in c.list; }
  }

  /** And of a response without an announced length: its end is noticed with the chunk after which the
      buffer, that is, what has not been sent on yet, holds the mark of a last chunk. */
  lemma UnannouncedEndsWithItsMark(hash: string -> int, k: Conn, c: Cache, chunk: string, connected: bool)
    requires Wf(k.b, c) && InResponseBody(k) && Owned(k) && k.user && !k.b.isHaveContentLengthResponse
    ensures var b := ServerRead(hash, k, c, chunk, connected).0.b;
      b.isEndSend <==> k.b.isEndSend || exists p :: MatchesAt(k.b.buf + chunk, "0\r\n\r\n", p)
  {
    ServerReadBody(hash, k, c, chunk, connected);
    BodyEndIff(k.b.buf + chunk);
    hide ServerRead, Wf, ResponseFramed, Parsed, FindEndBody;
  }
}
