/** What users, origins and cache readers can rely on, over whole histories. Each result asks only the
    connections it is about to send in turn. */
module ProxyTheorems {
  import opened Wrappers
  import opened Parser
  import opened CacheSpec
  import opened BufferSpec
  import opened ProxySystem
  import opened ProxyInvariant
  import opened ProxySteps
  import opened ProxyRoles
  import opened ProxyOrder
  import opened ProxyHistories
  import opened Deliveries

  // ----- The cache agrees with the origins -----

  /** Every element ever cached has exactly one writer, and if that one connection is in turn, whatever
      the others send, the element holds exactly the response bytes that the writer has received from
      its origin, under the heading of the writer's request. */
  lemma CacheAgreesWithOrigin(hash: string -> int, run: seq<Sys>, actions: seq<Action>, n: nat, id: nat)
    requires IsHistory(hash, run, actions) && n < |run| && id < |run[n].cache.store|
    ensures var s := run[n];
      && id < |s.writers| && s.writers[id] < |s.conns|
      && (forall i | 0 <= i < |s.conns| :: WritesTo(s.conns[i], id) <==> i == s.writers[id])
      && (WriterInTurn(hash, run, actions, n, id) ==>
            var k, e := s.conns[s.writers[id]], s.cache.store[id];
            && e.content == k.respIn
            && e.heading == k.b.requestHeading
            && (e.serverConnected <==> k.server)
            && (e.downloadEnd <==> Complete(k.respIn)))
  {
    WriterKept(hash, run, actions, n, id);
    hide IsHistory, WriterInTurn, InSomePhase, Owned, HasHeading, Heading;
  }

  /** What a connected cache reader counts as sent is always a prefix of its element, so of what the
      element's origin sent if the connection that caches it is in turn; and it has been sent all of
      that exactly if none of its writes was cut short. */
  lemma ReaderGetsPrefix(hash: string -> int, run: seq<Sys>, actions: seq<Action>, n: nat, i: nat)
    requires IsHistory(hash, run, actions) && n < |run| && i < |run[n].conns|
    requires OwnInTurn(hash, run, actions, n, i)
    requires run[n].conns[i].user && run[n].conns[i].b.isDataGetCash
    ensures var s, k := run[n], run[n].conns[i];
      && k.b.cashElement.Some? && k.b.cashElement.value < |s.cache.store| && k.b.cashElement.value < |s.writers|
      && var id := k.b.cashElement.value;
      && var w := s.writers[id];
      && w < |s.conns| && k.cashOut <= s.cache.store[id].content
      && (WriterInTurn(hash, run, actions, n, id) ==> k.cashOut <= s.conns[w].respIn)
      && |k.cashOut| == k.b.countByteReadFromCash + (if k.reader.SendProof? then |k.reader.sent| else 0)
      && (k.cashWire.sent == k.cashOut <==> k.cashWire.cuts == 0)
  {
    HistoryWires(hash, run, actions, n, i);
    ConnKept(hash, run, actions, n, i);
    hide IsHistory, OwnInTurn, WriterInTurn, ConnInv;
    WholeIffUncut(run[n].conns[i].cashOut, run[n].conns[i].cashWire, "");
    var s, k := run[n], run[n].conns[i];
    ReaderPhase(hash, k, s.cache.store);
    CacheAgreesWithOrigin(hash, run, actions, n, k.b.cashElement.value);
  }

  lemma ReaderPhase(hash: string -> int, k: Conn, store: seq<Elem>)
    requires ConnInv(hash, k, store) && k.user && k.b.isDataGetCash
    ensures InCache(hash, k, store)
  {
    hide ReaderData, HasHeading, Heading, ParsingHeading, Response, WriterOf;
  }

  // ----- Elements over time -----

  /** From one state to a later one, an element only gains bytes, and none once its origin left. */
  ghost predicate StoreGrows(store: seq<Elem>, store': seq<Elem>) {
    |store| <= |store'| && forall id | 0 <= id < |store| :: Grows(store[id], store'[id])
  }

  lemma StepGrows(hash: string -> int, s: Sys, a: Action)
    requires BaseInv(hash, s) && Possible(s, a)
    ensures StoreGrows(s.cache.store, Apply(hash, s, a).cache.store)
  {
    if !a.Accept? {
      ActionOnSystem(hash, s, a);
      hide CacheInv, HashesAgree, WritersAgree, CountsAgree, RolesInv, ApplyAt, PossibleAt, Grows, Role, Wf;
    }
  }

  lemma GrowsFurther(a: seq<Elem>, b: seq<Elem>, c: seq<Elem>)
    requires StoreGrows(a, b) && StoreGrows(b, c)
    ensures StoreGrows(a, c)
  {
    forall id | 0 <= id < |a| ensures Grows(a[id], c[id]) {
      assert Grows(a[id], b[id]) && Grows(b[id], c[id]);
    }
  }

  /** In every history, whatever anybody sends and when. */
  lemma {:induction false} HistoryGrows(hash: string -> int, run: seq<Sys>, actions: seq<Action>, n: nat, m: nat)
    requires IsHistory(hash, run, actions) && n <= m < |run|
    ensures StoreGrows(run[n].cache.store, run[m].cache.store)
    decreases m - n
  {
    hide BaseInv, Apply, Possible;
    if n < m {
      HistoryGrows(hash, run, actions, n, m - 1);
      HistoryBase(hash, run, actions, m - 1);
      assert run[m - 1 + 1] == Apply(hash, run[m - 1], actions[m - 1]);
      StepGrows(hash, run[m - 1], actions[m - 1]);
      GrowsFurther(run[n].cache.store, run[m - 1].cache.store, run[m].cache.store);
    }
  }

  /** A reader that leaves `getFromCash` after neither a failed wait nor a failed write has counted as
      sent everything the element will ever hold, at that time and at every later one, and has been
      sent it exactly if no write took less than it was given. If the connection that caches it is in
      turn, it is the whole announced response exactly if the origin sent it whole. */
  lemma CleanReaderGotEverything(hash: string -> int, run: seq<Sys>, actions: seq<Action>, n: nat, m: nat, i: nat)
    requires IsHistory(hash, run, actions) && n <= m < |run| && i < |run[n].conns|
    requires OwnInTurn(hash, run, actions, n, i)
    requires var k := run[n].conns[i]; k.user && k.run && k.reader.Left? && !k.reader.writeFailed
    ensures var k := run[n].conns[i];
      && k.b.cashElement.Some?
      && var id := k.b.cashElement.value;
      && id < |run[n].cache.store| && id < |run[m].cache.store|
      && k.cashOut == run[m].cache.store[id].content
      && (k.cashWire.sent == run[m].cache.store[id].content <==> k.cashWire.cuts == 0)
      && !run[m].cache.store[id].serverConnected
      && (WriterInTurn(hash, run, actions, n, id) ==>
            (Complete(k.cashOut) <==> run[n].cache.store[id].downloadEnd))
  {
    ConnKept(hash, run, actions, n, i);
    HistoryWires(hash, run, actions, n, i);
    hide IsHistory, OwnInTurn, WriterInTurn, ConnInv, Complete, ReaderData, HasHeading, Heading, ParsingHeading;
    var s, k := run[n], run[n].conns[i];
    WholeIffUncut(k.cashOut, k.cashWire, "");
    LeftReads(hash, k, s.cache.store);
    ReaderPhase(hash, k, s.cache.store);
    var id := k.b.cashElement.value;
    CacheAgreesWithOrigin(hash, run, actions, n, id);
    HistoryGrows(hash, run, actions, n, m);
    assert Grows(s.cache.store[id], run[m].cache.store[id]);
    CleanReaderIsDone(k, s.cache.store[id]);
  }

  lemma LeftReads(hash: string -> int, k: Conn, store: seq<Elem>)
    requires ConnInv(hash, k, store) && k.user && k.reader.Left?
    ensures k.b.isDataGetCash
  {
    hide InSomePhase, Writes;
  }

  lemma CleanReaderIsDone(k: Conn, e: Elem)
    requires ReaderData(k, e) && k.run && k.reader.Left? && !k.reader.writeFailed
    ensures k.cashOut == e.content && !e.serverConnected
  {
    assert e.content[..|e.content|] == e.content;
  }

  // ----- The reader loop ends -----

  /** How many steps a reader has left, at most, once its origin is gone. */
  function StepsLeft(k: Conn, e: Elem): nat
    requires k.b.countByteReadFromCash <= |e.content|
  {
    4 * (|e.content| - k.b.countByteReadFromCash) +
    match k.reader
    case Left(_, _) => 0
    case SendProof(final, _) => if final then 1 else 7
    case SendWrite(final) => if final then 2 else 8
    case SendTest(final) => if final then 3 else 9
    case OriginLeft => 4
    case TestOrigin => 5
    case TestReady => 6
    case MaySend => 10
    case NoReader => 0
  }

  lemma ReaderTestAdvances(k: Conn, c: Cache, ok: bool)
    requires Wf(k.b, c) && k.b.isDataGetCash && !k.reader.NoReader? && !k.reader.Left?
    requires !k.reader.SendWrite? && !k.reader.SendProof?
    requires ReaderData(k, c.store[k.b.cashElement.value])
    requires !c.store[k.b.cashElement.value].serverConnected
    ensures StepsLeft(ReaderTest(k, c, ok), c.store[k.b.cashElement.value])
      < StepsLeft(k, c.store[k.b.cashElement.value])
  {
    hide Cache.Wf;
  }

  lemma ReaderBound(k: Conn, c: Cache)
    requires Wf(k.b, c) && k.b.isDataGetCash && ReaderData(k, c.store[k.b.cashElement.value])
    ensures k.b.countByteReadFromCash <= |c.store[k.b.cashElement.value].content|
  {
    hide Cache.Wf;
  }

  lemma ReaderSendAdvances(k: Conn, c: Cache, ok: bool, taken: nat)
    requires Wf(k.b, c) && k.b.isDataGetCash && (k.reader.SendWrite? || k.reader.SendProof?)
    requires ReaderData(k, c.store[k.b.cashElement.value])
    ensures var e, k' := c.store[k.b.cashElement.value], ReaderStep(k, c, ok, taken);
      k'.b.countByteReadFromCash <= |e.content| && StepsLeft(k', e) < StepsLeft(k, e)
  {
    hide Cache.Wf;
    if k.reader.SendWrite? {
      hide SendBuf;
    }
  }

  /** Every step of a reader whose origin has left brings it nearer to leaving, whatever the writes
      and waits return. */
  lemma ReaderStepCounts(k: Conn, c: Cache, ok: bool, taken: nat)
    requires Wf(k.b, c) && k.b.isDataGetCash && !k.reader.NoReader? && !k.reader.Left?
    requires ReaderData(k, c.store[k.b.cashElement.value])
    requires !c.store[k.b.cashElement.value].serverConnected
    ensures var e, k' := c.store[k.b.cashElement.value], ReaderStep(k, c, ok, taken);
      k'.b.countByteReadFromCash <= |e.content| && StepsLeft(k', e) < StepsLeft(k, e)
  {
    if k.reader.SendWrite? || k.reader.SendProof? {
      ReaderSendAdvances(k, c, ok, taken);
    } else {
      ReaderBound(k, c);
      ReaderTestAdvances(k, c, ok);
      hide Cache.Wf, ReaderData, StepsLeft, NextPc;
    }
  }

  /** Connection `i` reads an element whose origin has left. */
  ghost predicate ReadsTheRest(s: Sys, i: nat) {
    && i < |s.conns| && s.conns[i].user && s.conns[i].b.isDataGetCash
    && s.conns[i].b.cashElement.Some? && s.conns[i].b.cashElement.value < |s.cache.store|
    && !s.cache.store[s.conns[i].b.cashElement.value].serverConnected
  }

  ghost function StepsLeftOf(s: Sys, i: nat): nat {
    if ReadsTheRest(s, i)
      && s.conns[i].b.countByteReadFromCash <= |s.cache.store[s.conns[i].b.cashElement.value].content|
    then StepsLeft(s.conns[i], s.cache.store[s.conns[i].b.cashElement.value])
    else 0
  }

  predicate IsStepOf(a: Action, i: nat) { a.ReadCash? && a.i == i }

  /** Steps of reader `i` among the actions from `n` up to `m`. */
  function OwnSteps(actions: seq<Action>, n: nat, m: nat, i: nat): nat
    requires n <= m <= |actions|
  {
    if n == m then 0 else OwnSteps(actions, n, m - 1, i) + (if IsStepOf(actions[m - 1], i) then 1 else 0)
  }

  lemma ReaderOf(hash: string -> int, s: Sys, i: nat)
    requires ReadsTheRest(s, i) && ConnInv(hash, s.conns[i], s.cache.store)
    ensures ReaderData(s.conns[i], s.cache.store[s.conns[i].b.cashElement.value])
    ensures !s.conns[i].reader.NoReader? && !s.conns[i].server
  {
    hide ConnInv, ReaderData, HasHeading, Heading, ParsingHeading;
    ReaderPhase(hash, s.conns[i], s.cache.store);
  }

  lemma OwnActionOfReader(hash: string -> int, s: Sys, a: Action)
    requires Possible(s, a) && !a.Accept? && ReadsTheRest(s, a.i)
    requires ConnInv(hash, s.conns[a.i], s.cache.store)
    ensures a.ReadCash? || a.ReaderExit? || a.Look?
    ensures ReaderData(s.conns[a.i], s.cache.store[s.conns[a.i].b.cashElement.value])
  {
    hide ConnInv, ReaderData, RefreshReady;
    ReaderOf(hash, s, a.i);
  }

  /** One action of anybody: a step of the reader itself counts down, nothing else counts up. */
  lemma OneActionCountsDown(hash: string -> int, s: Sys, a: Action, i: nat)
    requires BaseInv(hash, s) && Possible(s, a)
    requires ReadsTheRest(s, i) && ConnInv(hash, s.conns[i], s.cache.store)
    ensures var s' := Apply(hash, s, a);
      && i < |s'.conns|
      && (s'.conns[i].user ==> ReadsTheRest(s', i))
      && StepsLeftOf(s', i) + (if IsStepOf(a, i) then 1 else 0) <= StepsLeftOf(s, i)
  {
    hide BaseInv, ConnInv;
    var id, s' := s.conns[i].b.cashElement.value, Apply(hash, s, a);
    StepGrows(hash, s, a);
    assert Grows(s.cache.store[id], s'.cache.store[id]);
    if !a.Accept? && a.i == i {
      OwnActionOfReader(hash, s, a);
      ReaderBound(s.conns[i], s.cache);
      if a.ReadCash? {
        ReaderStepCounts(s.conns[i], s.cache, a.ok, a.taken);
        ReaderStepStays(s.conns[i], s.cache, a.ok, a.taken);
      } else if a.Look? {
        LookCounts(s.conns[i], s.cache);
      } else {
        ExitLeaves(s.conns[i], s.cache);
      }
    }
    hide StepsLeft, ReaderData, ReaderStep, DeleteUser, UserRead, ServerRead, DrainToServer, DrainToUser, LookAt, Wf,
      PossibleAt;
  }

  lemma LookCounts(k: Conn, c: Cache)
    requires Wf(k.b, c) && k.b.isDataGetCash && k.b.countByteReadFromCash <= |c.store[k.b.cashElement.value].content|
    ensures var e, k' := c.store[k.b.cashElement.value], LookAt(k, c);
      && k'.user == k.user && k'.b.isDataGetCash && k'.b.cashElement == k.b.cashElement
      && k'.b.countByteReadFromCash <= |e.content| && StepsLeft(k', e) == StepsLeft(k, e)
  {
    hide Cache.Wf;
  }

  lemma ExitLeaves(k: Conn, c: Cache)
    requires Wf(k.b, c)
    ensures !DeleteUser(k, c).0.user
  {
    hide Wf, LeftByReader, LeftByOrigin;
  }

  lemma ReaderStepStays(k: Conn, c: Cache, ok: bool, taken: nat)
    requires Wf(k.b, c) && k.b.isDataGetCash
    ensures var k' := ReaderStep(k, c, ok, taken);
      k'.user == k.user && k'.b.isDataGetCash && k'.b.cashElement == k.b.cashElement
  {
    hide Cache.Wf, NextPc, SendBuf, ProofSendFromCache, Written;
    if k.reader.SendProof? {
      FromCacheStays(k.b, c.store[k.b.cashElement.value], |k.reader.sent|);
      assert ReaderStep(k, c, ok, taken).b == ProofSendFromCache(k.b, c.store[k.b.cashElement.value], |k.reader.sent|);
    } else {
      TestOrWriteStays(k, c, ok, taken);
    }
    hide ReaderStep;
  }

  lemma FromCacheStays(b: Buf, e: Elem, sent: nat)
    ensures var r := ProofSendFromCache(b, e, sent);
      r.isDataGetCash == b.isDataGetCash && r.cashElement == b.cashElement
  {
  }

  lemma TestOrWriteStays(k: Conn, c: Cache, ok: bool, taken: nat)
    requires Wf(k.b, c) && k.b.isDataGetCash && !k.reader.SendProof?
    ensures var k' := ReaderStep(k, c, ok, taken);
      k'.user == k.user && k'.b.isDataGetCash && k'.b.cashElement == k.b.cashElement
  {
    hide Wf, NextPc, SendBuf, ProofSend, Written, RefreshReady;
    RefreshStays(k.b, c);
    if k.reader.SendWrite? {
      assert ReaderStep(k, c, ok, taken).b == k.b;
    } else {
      assert ReaderStep(k, c, ok, taken).b == k.b || ReaderStep(k, c, ok, taken).b == RefreshReady(k.b, c);
    }
  }

  lemma RefreshStays(b: Buf, c: Cache)
    requires Wf(b, c)
    ensures RefreshReady(b, c).isDataGetCash == b.isDataGetCash && RefreshReady(b, c).cashElement == b.cashElement
  {
    hide Cache.Wf;
  }

  /** Connection `i` is a cache reader. */
  ghost predicate ReadsCache(s: Sys, i: nat) {
    i < |s.conns| && s.conns[i].user && s.conns[i].b.isDataGetCash
  }

  ghost predicate Gone(s: Sys, i: nat) { i < |s.conns| && !s.conns[i].user && !s.conns[i].server }

  predicate IsChunk(a: Action) { a.UserChunk? || a.ServerChunk? }

  /** The chunk that made a connection a reader is the last one its peers get in: if all have come in
      turn until it is one, all will, for none comes any more. */
  lemma {:induction false} ReaderStaysInTurn(hash: string -> int, run: seq<Sys>, actions: seq<Action>, n: nat, m: nat,
                                             i: nat)
    requires IsHistory(hash, run, actions) && n <= m < |run|
    requires ReadsCache(run[n], i) && OwnInTurn(hash, run, actions, n, i)
    ensures OwnInTurn(hash, run, actions, m, i)
    ensures forall j | n <= j < m && IsChunk(actions[j]) :: actions[j].i != i
    ensures ReadsCache(run[m], i) || Gone(run[m], i)
    decreases m - n
  {
    hide BaseInv, ConnInv, Possible, Orderly, Apply;
    if n < m {
      ReaderStaysInTurn(hash, run, actions, n, m - 1, i);
      var s, a := run[m - 1], actions[m - 1];
      assert run[m - 1 + 1] == Apply(hash, s, a);
      HistoryBase(hash, run, actions, m - 1);
      if ReadsCache(s, i) {
        ConnKept(hash, run, actions, m - 1, i);
        ReaderActs(hash, s, a, i);
      } else {
        DeadStaysDead(hash, s, a, i);
      }
    }
  }

  lemma ReaderActs(hash: string -> int, s: Sys, a: Action, i: nat)
    requires BaseInv(hash, s) && Possible(s, a)
    requires ReadsCache(s, i) && ConnInv(hash, s.conns[i], s.cache.store)
    ensures !a.Accept? && a.i == i ==> Orderly(hash, s, a) && !IsChunk(a)
    ensures ReadsCache(Apply(hash, s, a), i) || Gone(Apply(hash, s, a), i)
  {
    hide BaseInv, ConnInv, ApplyAt, PossibleAt, Wf;
    if !a.Accept? && a.i == i {
      ReaderPhase(hash, s.conns[i], s.cache.store);
      hide InCache;
      OwnActionOfOneReader(hash, s.conns[i], s.cache, a);
    }
  }

  lemma OwnActionOfOneReader(hash: string -> int, k: Conn, c: Cache, a: Action)
    requires Wf(k.b, c) && InCache(hash, k, c.store) && !a.Accept? && PossibleAt(k, c, a)
    ensures (a.ReadCash? || a.ReaderExit? || a.Look?) && InTurn(hash, k, c, a)
    ensures var k' := ApplyAt(hash, k, c, a).0;
      (k'.user && k'.b.isDataGetCash) || (!k'.user && !k'.server)
  {
    hide Wf, ReaderData, RefreshReady, ReaderStep, DeleteUser, Parsed;
    if a.ReadCash? {
      ReaderStepStays(k, c, a.ok, a.taken);
    } else if a.ReaderExit? {
      ExitLeaves(k, c);
      ReaderGoesAlone(k, c, a);
    } else {
      RefreshStays(k.b, c);
    }
  }

  lemma ReaderGoesAlone(k: Conn, c: Cache, a: Action)
    requires Wf(k.b, c) && !k.server && k.user && k.b.isDataGetCash
    requires !a.Accept? && PossibleAt(k, c, a) && (a.ReadCash? || a.ReaderExit? || a.Look?)
    ensures forall hash :: !ApplyAt(hash, k, c, a).0.server
  {
    hide Wf, LeftByReader, LeftByOrigin, SendBuf, Written, ProofSend, RefreshReady, NextPc;
  }

  lemma DeadStaysDead(hash: string -> int, s: Sys, a: Action, i: nat)
    requires Possible(s, a) && i < |s.conns| && !s.conns[i].user && !s.conns[i].server
    ensures a.Accept? || a.i != i
    ensures var s' := Apply(hash, s, a); i < |s'.conns| && s'.conns[i] == s.conns[i]
  {
    hide Wf, ApplyAt, RefreshReady;
  }

  /** Over a history: a reader that became one in turn and whose origin has left takes at most four steps
      a byte and ten more, whatever waits and writes return and whatever anybody sends meanwhile. */
  lemma {:induction false} ReaderStepsAreBounded(hash: string -> int, run: seq<Sys>, actions: seq<Action>, n: nat,
                                                 m: nat, i: nat)
    requires IsHistory(hash, run, actions) && n <= m < |run| && ReadsTheRest(run[n], i)
    requires OwnInTurn(hash, run, actions, n, i)
    ensures i < |run[m].conns| && (run[m].conns[i].user ==> ReadsTheRest(run[m], i))
    ensures OwnSteps(actions, n, m, i) + StepsLeftOf(run[m], i) <= StepsLeftOf(run[n], i)
    decreases m - n
  {
    hide BaseInv, ConnInv, Possible, Orderly, Apply, ReadsTheRest, StepsLeftOf, OwnInTurn;
    if n < m {
      ReaderStepsAreBounded(hash, run, actions, n, m - 1, i);
      ReadersAreUsers(run[n], i);
      ReaderStaysInTurn(hash, run, actions, n, m - 1, i);
      HistoryBase(hash, run, actions, m - 1);
      var s, a := run[m - 1], actions[m - 1];
      assert run[m - 1 + 1] == Apply(hash, s, a);
      if s.conns[i].user {
        ConnKept(hash, run, actions, m - 1, i);
        OneActionCountsDown(hash, s, a, i);
      } else {
        GoneHasNoSteps(s, i);
        DeadStaysDead(hash, s, a, i);
        GoneHasNoSteps(run[m], i);
      }
    } else {
      ReadersAreUsers(run[n], i);
    }
  }

  lemma GoneHasNoSteps(s: Sys, i: nat)
    requires i < |s.conns| && !s.conns[i].user
    ensures StepsLeftOf(s, i) == 0 && !ReadsTheRest(s, i)
  {
  }

  lemma ReadersAreUsers(s: Sys, i: nat)
    requires ReadsTheRest(s, i)
    ensures ReadsCache(s, i)
  {
  }

  /** So it leaves: once it has taken that many steps it has left its loop, and until then it can
      always take another. */
  lemma ReaderLeaves(hash: string -> int, run: seq<Sys>, actions: seq<Action>, n: nat, m: nat, i: nat, ok: bool,
                     taken: nat)
    requires IsHistory(hash, run, actions) && n <= m < |run| && ReadsTheRest(run[n], i)
    requires OwnInTurn(hash, run, actions, n, i)
    ensures var content := run[n].cache.store[run[n].conns[i].b.cashElement.value].content;
      && i < |run[m].conns|
      && OwnSteps(actions, n, m, i) <= 4 * |content| + 10
      && (OwnSteps(actions, n, m, i) == 4 * |content| + 10 && run[m].conns[i].user ==> run[m].conns[i].reader.Left?)
      && (run[m].conns[i].user && !run[m].conns[i].reader.Left? ==> Possible(run[m], ReadCash(i, ok, taken)))
  {
    hide BaseInv, ConnInv, Possible, Orderly, Apply, StepsLeftOf, OwnInTurn;
    ReaderStepsAreBounded(hash, run, actions, n, m, i);
    AtMost(run[n], i);
    if run[m].conns[i].user && !run[m].conns[i].reader.Left? {
      ReadersAreUsers(run[n], i);
      ReaderStaysInTurn(hash, run, actions, n, m, i);
      HistoryBase(hash, run, actions, m);
      ConnKept(hash, run, actions, m, i);
      hide IsHistory;
      CanStep(hash, run[m], i, ok, taken);
    }
  }

  lemma AtMost(s: Sys, i: nat)
    requires ReadsTheRest(s, i)
    ensures StepsLeftOf(s, i) <= 4 * |s.cache.store[s.conns[i].b.cashElement.value].content| + 10
  {
  }

  lemma StepsLeftPositive(k: Conn, e: Elem)
    requires ReaderData(k, e) && !k.reader.NoReader? && !k.reader.Left?
    ensures k.b.countByteReadFromCash <= |e.content| && StepsLeft(k, e) > 0
  {
  }

  lemma CanStep(hash: string -> int, s: Sys, i: nat, ok: bool, taken: nat)
    requires BaseInv(hash, s) && ReadsTheRest(s, i) && !s.conns[i].reader.Left?
    requires ConnInv(hash, s.conns[i], s.cache.store)
    ensures Possible(s, ReadCash(i, ok, taken)) && StepsLeftOf(s, i) > 0
  {
    hide BaseInv, ConnInv, Wf, ReaderData, StepsLeft;
    PointersAreGood(hash, s, i);
    ReaderOf(hash, s, i);
    StepsLeftPositive(s.conns[i], s.cache.store[s.conns[i].b.cashElement.value]);
  }

  /** A reader never writes an empty chunk, nor one that is longer than what one read can take: it writes
      what is left of the content, or as much of it as one write takes. A write that does not fail is counted
      in full, and the socket takes of it what the write says; one that fails ends the loop. */
  lemma ReaderChunks(k: Conn, c: Cache)
    requires Wf(k.b, c) && k.b.isDataGetCash && k.reader.SendWrite?
    requires ReaderData(k, c.store[k.b.cashElement.value])
    ensures 0 < |SendBuf(k.b, c, "")| < BUF_SIZE
    ensures k.cashOut + SendBuf(k.b, c, "") <= c.store[k.b.cashElement.value].content
    ensures forall ok, taken: nat ::
      var content, at := c.store[k.b.cashElement.value].content, k.b.countByteReadFromCash;
      var chunk := content[at..at + Min(|content| - at, BUF_SIZE - 1)];
      var k' := ReaderStep(k, c, ok, taken);
      if ok then
        && k'.cashOut == k.cashOut + chunk && k'.reader == SendProof(k.reader.final, chunk)
        && k'.cashWire.sent == k.cashWire.sent + chunk[..Min(taken, |chunk|)]
        && k'.cashWire.cuts == (if taken < |chunk| then k.cashWire.cuts + 1 else k.cashWire.cuts)
      else k' == k.(reader := Left(k.reader.final, true))
  {
    var content := c.store[k.b.cashElement.value].content;
    var at := k.b.countByteReadFromCash;
    hide Cache.Wf;
    var sent := SendBuf(k.b, c, "");
    assert content[..at] + sent == content[..at + |sent|];
  }
}
