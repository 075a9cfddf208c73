/** The whole proxy as a transition system: any number of connections, each served by its own
    thread, share one cache. One action is one atomic step of one thread
    (lab32v2/server/HandlerOneClientImpl.cpp). */
module ProxySystem {
  import opened Wrappers
  import opened Parser
  import opened CacheSpec
  import opened BufferSpec

  /** Where the thread of a cache reader stands in `getFromCash` and `sendAll`. `final` says that
      `sendAll` was entered because the origin had left; `Left` is the end of `getFromCash`. */
  datatype ReaderPc =
    | NoReader
    | TestOrigin                            // line 266, first operand
    | TestReady                             // line 267, second operand, and the wait
    | OriginLeft                            // line 273
    | MaySend                               // line 277
    | SendTest(final: bool)                 // line 332
    | SendWrite(final: bool)                // lines 333-338
    | SendProof(final: bool, sent: string)  // line 339
    | Left(final: bool, writeFailed: bool)

  /** What became of the writes to one socket: the bytes it took, and how many writes it cut short,
      by failing or by taking less than the whole chunk. */
  datatype Wire = Wire(sent: string, cuts: nat)

  const SILENT := Wire("", 0)

  /** One more write, of which the socket takes at most `taken` bytes. A write that fails takes none. */
  function Written(w: Wire, chunk: string, taken: nat): Wire {
    Wire(w.sent + chunk[..Min(taken, |chunk|)], if taken < |chunk| then w.cuts + 1 else w.cuts)
  }

  /** One connection: the shared buffer, the two endpoints that may point to it, and histories.
      `frees` counts how often the buffer was deleted, `origins` how many origins are attached to
      it. `run` is the flag of `getFromCash`. The histories `reqIn` and `respIn` are the bytes read
      from each socket, `reqOut`, `respOut` and `cashOut` the bytes the buffer has counted as sent,
      and the wires what the sockets took of them; `late` are bytes the origin sent after the exchange
      was over. */
  datatype Conn = Conn(
    b: Buf,
    frees: nat,
    origins: nat,
    user: bool,
    server: bool,
    userHasPair: bool,
    serverKnowsUser: bool,
    reader: ReaderPc,
    run: bool,
    reqIn: string,
    reqOut: string,
    respIn: string,
    respOut: string,
    late: string,
    cashOut: string,
    reqWire: Wire,
    respWire: Wire,
    cashWire: Wire)

  /** `writers[id]` is the connection that created element `id`. */
  datatype Sys = Sys(cache: Cache, conns: seq<Conn>, writers: seq<nat>)

  const INITIAL := Sys(EMPTY, [], [])

  const ACCEPTED :=
    Conn(FRESH.(isClientConnect := true), 0, 0, true, false, false, false, NoReader, true, "", "", "", "", "", "",
         SILENT, SILENT, SILENT)

  // ----- Teardown -----

  /** The cache once the origin of a response being cached has left. */
  function LeftByOrigin(b: Buf, c: Cache): (r: Cache)
    requires Wf(b, c)
    ensures r.Wf() && |r.store| == |c.store|
  {
    if b.isAddDataToCash then SetServerConnect(c, b.cashElement.value, false) else c
  }

  /** The cache once a reader has left its element. */
  function LeftByReader(b: Buf, c: Cache): (r: Cache)
    requires Wf(b, c)
    ensures r.Wf() && |r.store| == |c.store|
  {
    if b.isDataGetCash then AddUsers(c, b.cashElement.value, -1) else c
  }

  /** `deleteClientServer`. */
  function DeleteServer(k: Conn, c: Cache): (r: (Conn, Cache))
    requires Wf(k.b, c)
  {
    var c1 := LeftByOrigin(k.b, c);
    var b1 := k.b.(statusHttpServer := EndWork, isServerConnect := false);
    (k.(b := b1,
        server := false,
        serverKnowsUser := false,
        userHasPair := k.userHasPair && !k.serverKnowsUser,
        origins := if k.origins > 0 then k.origins - 1 else 0,
        frees := if b1.isClientConnect then k.frees else k.frees + 1),
     c1)
  }

  /** The part of `deleteClientUser` that concerns the pair (lines 193-204): unless a response is
      being cached, the server goes first. */
  function DeletePair(k: Conn, c: Cache): (r: (Conn, Cache))
    requires Wf(k.b, c)
  {
    if !k.userHasPair then (k, c)
    else
      var k1 := k.(serverKnowsUser := false);
      if k.b.isAddDataToCash then (k1, c) else DeleteServer(k1, c)
  }

  /** The rest of `deleteClientUser` (lines 206-217). */
  function ReleaseBuffer(k: Conn, c: Cache): (r: (Conn, Cache))
    requires Wf(k.b, c)
  {
    var c1 := LeftByReader(k.b, c);
    (k.(b := k.b.(statusClient := EndWork, isClientConnect := false),
        user := false,
        userHasPair := false,
        frees := if k.b.isServerConnect then k.frees else k.frees + 1),
     c1)
  }

  function DeleteUser(k: Conn, c: Cache): (r: (Conn, Cache))
    requires Wf(k.b, c)
  {
    var (k1, c1) := DeletePair(k, c);
    ReleaseBuffer(k1, c1)
  }

  // ----- Socket events -----

  /** Lines 78-117 for the user's endpoint: the chunk goes through the buffer; a hit turns the
      connection into a cache reader, a miss makes the handler connect to the origin. */
  function UserRead(hash: string -> int, k: Conn, c: Cache, chunk: string, connected: bool): (Conn, Cache)
    requires Wf(k.b, c)
  {
    var o := ReadFromSocket(hash, k.b, c, chunk);
    var k1 := k.(b := o.b, reqIn := k.reqIn + chunk);
    if o.ok && o.b.statusClient == ReadResponse && o.b.isDataGetCash then (k1.(reader := TestOrigin), o.c)
    else if o.b.isReadyConnectHttpServer then
      var b2 := o.b.(isReadyConnectHttpServer := false);
      if connected then
        (k1.(b := b2.(isServerConnect := true), origins := k.origins + 1, server := true, userHasPair := true,
             serverKnowsUser := true),
         o.c)
      else DeleteUser(k1.(b := b2), o.c)
    else (k1, o.c)
  }

  /** The same lines for the origin's endpoint. An origin that speaks while its request is still being
      relayed is taken for the client: its bytes join the request, and if they make the buffer parse
      a request heading again, another origin is attached to the same buffer. */
  function ServerRead(hash: string -> int, k: Conn, c: Cache, chunk: string, connected: bool): (Conn, Cache)
    requires Wf(k.b, c)
  {
    var o := ReadFromSocket(hash, k.b, c, chunk);
    var over := k.b.statusHttpServer == EndWork;
    var k1 := k.(b := o.b, respIn := if over then k.respIn else k.respIn + chunk,
                 late := if over then k.late + chunk else k.late);
    if o.b.isReadyConnectHttpServer then
      var b2 := o.b.(isReadyConnectHttpServer := false);
      if connected then (k1.(b := b2.(isServerConnect := true), origins := k.origins + 1), o.c)
      else DeleteServer(k1.(b := b2), o.c)
    else (k1, o.c)
  }

  /** The flag of line 100 is no part of what keeps pointers good. */
  lemma Cleared(b: Buf, c: Cache)
    requires Wf(b, c)
    ensures Wf(b.(isReadyConnectHttpServer := false), c)
  {
    hide Cache.Wf;
  }

  /** The endpoint that may drain the buffer (lines 146-150). */
  predicate ServerMayDrain(k: Conn, c: Cache)
    requires Wf(k.b, c)
  {
    k.server && RefreshReady(k.b, c).isReadyToSend && k.b.statusHttpServer == ReadRequest
  }

  predicate UserMayDrain(k: Conn, c: Cache)
    requires Wf(k.b, c)
  {
    k.user && k.reader.NoReader? && RefreshReady(k.b, c).isReadyToSend && k.b.statusClient == ReadResponse
  }

  /** Lines 152-154. The buffer counts the chunk as sent whatever the write returned. */
  function DrainToServer(k: Conn, c: Cache, taken: nat): Conn
    requires Wf(k.b, c)
  {
    var chunk := SendBuf(k.b, c, "");
    k.(b := ProofSend(RefreshReady(k.b, c), c, chunk), reqOut := k.reqOut + chunk,
       reqWire := Written(k.reqWire, chunk, taken))
  }

  function DrainToUser(k: Conn, c: Cache, taken: nat): Conn
    requires Wf(k.b, c)
  {
    var chunk := SendBuf(k.b, c, "");
    k.(b := ProofSend(RefreshReady(k.b, c), c, chunk), respOut := k.respOut + chunk,
       respWire := Written(k.respWire, chunk, taken))
  }

  /** The handler asks whether there is anything to send, which may raise the flag (line 146). */
  function LookAt(k: Conn, c: Cache): Conn
    requires Wf(k.b, c)
  {
    k.(b := RefreshReady(k.b, c))
  }

  /** When the handler closes an endpoint on its own (lines 120-143), without a hang-up. */
  predicate ServerMustClose(b: Buf) {
    || (b.statusClient.EndWork? && !b.isAddDataToCash)
    || b.statusHttpServer.EndWork?
    || (b.statusClient.EndWork? && b.isEndSend)
  }

  predicate UserMustClose(b: Buf, c: Cache)
    requires Wf(b, c)
  {
    || b.statusClient.EndWork?
    || (b.statusHttpServer.EndWork? && !RefreshReady(b, c).isReadyToSend)
  }

  // ----- The cache reader -----

  function NextRound(k: Conn): ReaderPc { if k.run then TestOrigin else Left(false, false) }

  /** Where a test leads. `ready` is the answer of `isReadyToSend`. */
  function NextPc(k: Conn, e: Elem, ready: bool, ok: bool): ReaderPc {
    match k.reader
    case TestOrigin => if e.serverConnected then TestReady else OriginLeft
    case TestReady => if ready || !ok then OriginLeft else TestOrigin
    case OriginLeft => if !e.serverConnected then SendTest(true) else MaySend
    case MaySend => if ready then SendTest(false) else NextRound(k)
    case SendTest(final) => if ready then SendWrite(final) else if final then Left(true, false) else NextRound(k)
    case pc => pc
  }

  /** A step that only looks at flags. A failed wait ends the rounds. */
  function ReaderTest(k: Conn, c: Cache, ok: bool): Conn
    requires Wf(k.b, c) && k.b.isDataGetCash
  {
    var e := c.store[k.b.cashElement.value];
    var refreshed := RefreshReady(k.b, c);
    var asks := k.reader.TestReady? || k.reader.MaySend? || k.reader.SendTest?;
    k.(b := if asks then refreshed else k.b,
       run := k.run && (!k.reader.TestReady? || refreshed.isReadyToSend || ok),
       reader := NextPc(k, e, refreshed.isReadyToSend, ok))
  }

  /** Lines 334-338. Only a negative code is noticed; the buffer then counts the whole chunk. */
  function ReaderWrite(k: Conn, c: Cache, ok: bool, taken: nat): Conn
    requires Wf(k.b, c) && k.reader.SendWrite?
  {
    var chunk := SendBuf(k.b, c, "");
    if ok then
      k.(cashOut := k.cashOut + chunk, cashWire := Written(k.cashWire, chunk, taken),
         reader := SendProof(k.reader.final, chunk))
    else k.(reader := Left(k.reader.final, true))
  }

  /** One step of `getFromCash`. `ok` is the outcome of the wait or write the step performs. */
  function ReaderStep(k: Conn, c: Cache, ok: bool, taken: nat): Conn
    requires Wf(k.b, c) && k.b.isDataGetCash
  {
    if k.reader.SendWrite? then ReaderWrite(k, c, ok, taken)
    else if k.reader.SendProof? then
      k.(b := ProofSend(k.b, c, k.reader.sent), reader := SendTest(k.reader.final))
    else ReaderTest(k, c, ok)
  }

  /** What a reader keeps between two steps of its loop: it has not read past the content, and it
      counts itself ready only if something is left. */
  predicate CanRead(b: Buf, e: Elem) {
    b.countByteReadFromCash <= |e.content| && (b.isReadyToSend ==> b.countByteReadFromCash < |e.content|)
  }

  /** The reader's buffer after `sendAll` has written `wrote` bytes, while the element stood still. */
  function AfterWrites(b: Buf, e: Elem, wrote: nat): Buf {
    var count := b.countByteReadFromCash + wrote;
    b.(countByteReadFromCash := count,
       isReadyToSend := count < |e.content|,
       isEndSend := b.isEndSend || (wrote > 0 && e.downloadEnd),
       statusClient := if wrote > 0 && e.downloadEnd then EndWork else b.statusClient,
       error := b.error || (wrote > 0 && !e.downloadEnd && !e.serverConnected))
  }

  lemma AfterNoWrite(b: Buf, c: Cache)
    requires Wf(b, c) && b.isDataGetCash && CanRead(b, c.store[b.cashElement.value])
    ensures var e := c.store[b.cashElement.value];
      && RefreshReady(b, c) == AfterWrites(b, e, 0)
      && (AfterWrites(b, e, 0).isReadyToSend <==> b.countByteReadFromCash < |e.content|)
  {
    hide Cache.Wf;
  }

  /** One round of `sendAll`: the chunk is not empty, continues the content, and the buffer then
      counts it. */
  lemma AfterOneMoreWrite(b: Buf, c: Cache, wrote: nat)
    requires Wf(b, c) && b.isDataGetCash
    requires var e := c.store[b.cashElement.value];
      CanRead(b, e) && b.countByteReadFromCash + wrote < |e.content|
    ensures var e := c.store[b.cashElement.value];
      var b1 := AfterWrites(b, e, wrote);
      var at := b.countByteReadFromCash + wrote;
      Wf(b1, c) && b1.isDataGetCash && !(b1.statusHttpServer.WriteResponseHeading?) &&
      var sent := SendBuf(b1, c, "");
      && 0 < |sent| < BUF_SIZE && at + |sent| <= |e.content| && sent == e.content[at..at + |sent|]
      && var b2 := AfterWrites(b, e, wrote + |sent|);
      && RefreshReady(ProofSend(b1, c, sent), c) == b2
      && (b2.isReadyToSend <==> at + |sent| < |e.content|)
  {
    hide Cache.Wf;
  }

  // ----- The system -----

  datatype Action =
    | Accept
    | UserChunk(i: nat, chunk: string, connected: bool)
    | ServerChunk(i: nat, chunk: string, connected: bool)
    | DrainServer(i: nat, taken: nat)
    | DrainUser(i: nat, taken: nat)
    | CloseServer(i: nat)
    | CloseUser(i: nat)
    | Look(i: nat)
    | ReadCash(i: nat, ok: bool, taken: nat)
    | ReaderExit(i: nat)

  /** When an action can happen at all, whoever the peers are. A chunk is what one `read` returns;
      any endpoint may send or hang up at any time. */
  predicate Possible(s: Sys, a: Action) {
    a.Accept? ||
    (a.i < |s.conns| && Wf(s.conns[a.i].b, s.cache) && PossibleAt(s.conns[a.i], s.cache, a))
  }

  predicate PossibleAt(k: Conn, c: Cache, a: Action)
    requires Wf(k.b, c) && !a.Accept?
  {
    match a
    case UserChunk(_, chunk, _) => k.user && k.reader.NoReader? && 0 < |chunk| < BUF_SIZE
    case ServerChunk(_, chunk, _) => k.server && 0 < |chunk| < BUF_SIZE
    case DrainServer(_, _) => ServerMayDrain(k, c)
    case DrainUser(_, _) => UserMayDrain(k, c)
    case CloseServer(_) => k.server
    case CloseUser(_) => k.user && k.reader.NoReader?
    case Look(_) => k.user || k.server
    case ReadCash(_, _, _) => k.user && !k.reader.NoReader? && !k.reader.Left? && k.b.isDataGetCash
    case ReaderExit(_) => k.user && k.reader.Left?
  }

  /** Whether a chunk comes in its sender's turn. An origin must not send while its request is still
      being relayed. A client must not send once its request has been relayed; before that only bytes
      are out of turn that make the buffer parse the heading of a GET again (and even then nothing
      is left to go wrong if that makes the handler look for another origin in vain). */
  predicate InTurn(hash: string -> int, k: Conn, c: Cache, a: Action)
    requires Wf(k.b, c)
  {
    match a
    case UserChunk(_, chunk, connected) =>
      || k.b.statusClient.WriteRequestBody?
      || (k.b.statusClient.WriteRequestHeading? && (!k.b.isEndSend || ParsesInVain(hash, k.b, c, chunk, connected)))
    case ServerChunk(_, _, _) => !k.b.statusHttpServer.ReadRequest?
    case _ => true
  }

  predicate ParsesInVain(hash: string -> int, b: Buf, c: Cache, chunk: string, connected: bool)
    requires c.Wf()
  {
    var end := FindEndHeading(b.buf + chunk);
    end.Some? ==>
      var heading := (b.buf + chunk)[..end.value];
      ParsingHeading(heading).Some? && !Contains(c, hash(heading)) && !connected
  }

  /** The chunk makes the buffer ask for an origin, one is found, and there still is one: this puts a
      second origin on the buffer. (One that replaces an origin that has left is no second one.) */
  predicate AsksAgain(hash: string -> int, k: Conn, c: Cache, chunk: string, connected: bool)
    requires Wf(k.b, c)
  {
    connected && k.origins > 0 && ReadFromSocket(hash, k.b, c, chunk).b.isReadyConnectHttpServer
  }

  predicate Orderly(hash: string -> int, s: Sys, a: Action)
    requires Possible(s, a)
  {
    a.Accept? || InTurn(hash, s.conns[a.i], s.cache, a)
  }

  function ApplyAt(hash: string -> int, k: Conn, c: Cache, a: Action): (Conn, Cache)
    requires Wf(k.b, c) && !a.Accept? && PossibleAt(k, c, a)
  {
    match a
    case UserChunk(_, chunk, connected) => UserRead(hash, k, c, chunk, connected)
    case ServerChunk(_, chunk, connected) => ServerRead(hash, k, c, chunk, connected)
    case DrainServer(_, taken) => (DrainToServer(k, c, taken), c)
    case DrainUser(_, taken) => (DrainToUser(k, c, taken), c)
    case CloseServer(_) => DeleteServer(k, c)
    case CloseUser(_) => DeleteUser(k, c)
    case Look(_) => (LookAt(k, c), c)
    case ReadCash(_, ok, taken) => (ReaderStep(k, c, ok, taken), c)
    case ReaderExit(_) => DeleteUser(k, c)
  }

  /** Whoever makes the store grow is the writer of the new element. */
  function Recorded(s: Sys, i: nat, k: Conn, c: Cache): Sys
    requires i < |s.conns|
  {
    Sys(c, s.conns[i := k], if |c.store| > |s.cache.store| then s.writers + [i] else s.writers)
  }

  function Apply(hash: string -> int, s: Sys, a: Action): Sys
    requires Possible(s, a)
  {
    if a.Accept? then s.(conns := s.conns + [ACCEPTED])
    else
      var (k, c) := ApplyAt(hash, s.conns[a.i], s.cache, a);
      Recorded(s, a.i, k, c)
  }

  /** A history: the states of any interleaving of the threads and the actions between them,
      whatever the peers send and when. */
  ghost predicate IsHistory(hash: string -> int, run: seq<Sys>, actions: seq<Action>) {
    && |run| == |actions| + 1 && run[0] == INITIAL
    && forall j | 0 <= j < |actions| :: Possible(run[j], actions[j]) && run[j + 1] == Apply(hash, run[j], actions[j])
  }

  /** The chunks of connection `i` among the first `n` actions come in their sender's turn. */
  ghost predicate OwnInTurn(hash: string -> int, run: seq<Sys>, actions: seq<Action>, n: nat, i: nat)
    requires n <= |actions| && n <= |run|
  {
    forall j | 0 <= j < n :: !actions[j].Accept? && actions[j].i == i ==>
      Possible(run[j], actions[j]) && Orderly(hash, run[j], actions[j])
  }
}
