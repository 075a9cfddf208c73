/** That a cache reader is really sent what its element holds, while the origin is still connected as well
    as afterwards (lab32v2/server/HandlerOneClientImpl.cpp:264-281, 331-342). */
module ReaderProgress {
  import opened Wrappers
  import opened CacheSpec
  import opened BufferSpec
  import opened ProxySystem
  import opened ProxyInvariant
  import opened ProxyRoles
  import opened ProxyHistories
  import opened Deliveries
  import opened ProxyTheorems

  // ----- One step -----

  /** How many steps a reader has left, at most, until it has counted `goal` bytes. */
  function StepsBehind(k: Conn, goal: nat): int
  {
    3 * (goal - k.b.countByteReadFromCash) +
    match k.reader
    case TestOrigin => 4
    case TestReady => 3
    case OriginLeft => 2
    case MaySend => 1
    case SendWrite(_) => -1
    case SendProof(_, _) => -2
    case _ => 0
  }

  /** The reader is in its loop, and has not yet counted `goal` bytes of an element that holds them. */
  ghost predicate Behind(k: Conn, store: seq<Elem>, id: nat, goal: nat) {
    && k.user && k.b.isDataGetCash && k.b.cashElement == Some(id) && id < |store|
    && !k.reader.NoReader? && !k.reader.Left? && ReaderData(k, store[id])
    && k.b.countByteReadFromCash < goal <= |store[id].content|
  }

  lemma TestCatchesUp(k: Conn, c: Cache, id: nat, goal: nat, ok: bool)
    requires Wf(k.b, c) && Behind(k, c.store, id, goal) && !k.reader.SendWrite? && !k.reader.SendProof?
    ensures var k' := ReaderTest(k, c, ok);
      && !k'.reader.Left? && k'.b.countByteReadFromCash == k.b.countByteReadFromCash
      && StepsBehind(k', goal) < StepsBehind(k, goal)
  {
    hide Cache.Wf;
  }

  lemma WriteCatchesUp(k: Conn, c: Cache, id: nat, goal: nat, taken: nat)
    requires Wf(k.b, c) && Behind(k, c.store, id, goal) && k.reader.SendWrite?
    ensures var k' := ReaderWrite(k, c, true, taken);
      && !k'.reader.Left? && k'.b == k.b && StepsBehind(k', goal) < StepsBehind(k, goal)
  {
    hide Cache.Wf, SendBuf;
  }

  lemma ProofCatchesUp(k: Conn, c: Cache, id: nat, goal: nat, ok: bool, taken: nat)
    requires Wf(k.b, c) && Behind(k, c.store, id, goal) && k.reader.SendProof?
    ensures var k' := ReaderStep(k, c, ok, taken);
      !k'.reader.Left? && StepsBehind(k', goal) < StepsBehind(k, goal)
  {
    hide Cache.Wf;
  }

  /** A step of a reader that is behind, unless it is a write that fails, brings it nearer; it does not
      leave, whether the origin is connected or not. */
  lemma StepCatchesUp(k: Conn, c: Cache, id: nat, goal: nat, ok: bool, taken: nat)
    requires Wf(k.b, c) && Behind(k, c.store, id, goal) && (k.reader.SendWrite? ==> ok)
    ensures var k' := ReaderStep(k, c, ok, taken);
      && !k'.reader.Left? && StepsBehind(k', goal) < StepsBehind(k, goal)
      && k'.user && k'.b.isDataGetCash && k'.b.cashElement == Some(id)
  {
    hide Wf, ReaderTest, ReaderWrite, ProofSend, StepsBehind;
    ReaderStepStays(k, c, ok, taken);
    if k.reader.SendProof? {
      ProofCatchesUp(k, c, id, goal, ok, taken);
    } else if k.reader.SendWrite? {
      WriteCatchesUp(k, c, id, goal, taken);
    } else {
      TestCatchesUp(k, c, id, goal, ok);
    }
  }

  lemma LookStays(k: Conn, c: Cache, goal: nat)
    requires Wf(k.b, c)
    ensures var k' := LookAt(k, c);
      && k'.user == k.user && k'.reader == k.reader && k'.b.isDataGetCash == k.b.isDataGetCash
      && k'.b.cashElement == k.b.cashElement && k'.cashOut == k.cashOut && StepsBehind(k', goal) == StepsBehind(k, goal)
  {
    hide Cache.Wf;
  }

  /** Nothing that has been counted is taken back. */
  lemma CountedStays(hash: string -> int, k: Conn, c: Cache, a: Action)
    requires Wf(k.b, c) && !a.Accept? && PossibleAt(k, c, a)
    ensures k.cashOut <= ApplyAt(hash, k, c, a).0.cashOut
  {
    hide Wf, UserRead, ServerRead, DeleteUser, DeleteServer, SendBuf, ProofSend, RefreshReady, Written, NextPc,
      UserMayDrain, ServerMayDrain;
    match a {
      case UserChunk(_, chunk, connected) => UserReadWritesNothing(hash, k, c, chunk, connected);
      case ServerChunk(_, chunk, connected) => ServerReadWritesNothing(hash, k, c, chunk, connected);
      case CloseServer(_) => TeardownWritesNothing(k, c);
      case CloseUser(_) => TeardownWritesNothing(k, c);
      case ReaderExit(_) => TeardownWritesNothing(k, c);
      case _ =>
    }
  }

  // ----- Over histories -----

  /** No write of reader `i` fails among the actions from `n` up to `m`. */
  ghost predicate WritesSucceed(run: seq<Sys>, actions: seq<Action>, n: nat, m: nat, i: nat)
    requires n <= m <= |actions| && m <= |run|
  {
    forall j | n <= j < m && IsStepOf(actions[j], i) && i < |run[j].conns| && run[j].conns[i].reader.SendWrite? ::
      actions[j].ok
  }

  /** Reader `i` has counted all of `content`, or is in its loop and has so many steps left to do so. */
  ghost predicate Catching(hash: string -> int, s: Sys, i: nat, id: nat, content: string, left: int) {
    && i < |s.conns| && id < |s.cache.store| && content <= s.cache.store[id].content
    && (content <= s.conns[i].cashOut
        || (Behind(s.conns[i], s.cache.store, id, |content|) && StepsBehind(s.conns[i], |content|) <= left))
  }

  /** A reader that has counted so many bytes has counted the content up to there. */
  lemma CaughtUp(k: Conn, e: Elem, content: string)
    requires ReaderData(k, e) && content <= e.content && |content| <= k.b.countByteReadFromCash
    ensures content <= k.cashOut
  {
  }

  lemma BehindOrCaughtUp(hash: string -> int, s: Sys, i: nat, id: nat, content: string)
    requires ReadsCache(s, i) && ConnInv(hash, s.conns[i], s.cache.store) && s.conns[i].b.cashElement == Some(id)
    requires id < |s.cache.store| && content <= s.cache.store[id].content && !s.conns[i].reader.Left?
    ensures Catching(hash, s, i, id, content, StepsBehind(s.conns[i], |content|))
  {
    hide ConnInv, StepsBehind, ReaderData, Parsed;
    var k := s.conns[i];
    ReaderPhase(hash, k, s.cache.store);
    if k.b.countByteReadFromCash >= |content| { CaughtUp(k, s.cache.store[id], content); }
  }

  lemma StepsOfStep(a: Action, i: nat)
    ensures IsStepOf(a, i) ==> !a.Accept? && a.i == i
  {
  }

  lemma StepCatching(hash: string -> int, s: Sys, a: Action, i: nat, id: nat, content: string, left: int)
    requires BaseInv(hash, s) && Possible(s, a) && Catching(hash, s, i, id, content, left)
    requires i < |s.conns| && ConnInv(hash, s.conns[i], s.cache.store)
    requires i < |Apply(hash, s, a).conns| && ConnInv(hash, Apply(hash, s, a).conns[i], Apply(hash, s, a).cache.store)
    requires IsStepOf(a, i) && s.conns[i].reader.SendWrite? ==> a.ok
    ensures Catching(hash, Apply(hash, s, a), i, id, content, left - (if IsStepOf(a, i) then 1 else 0))
  {
    hide BaseInv, ConnInv, StepsBehind, ReaderData, Wf, PossibleAt, ApplyAt, Grows;
    var s' := Apply(hash, s, a);
    StepGrows(hash, s, a);
    GrowsIsLonger(s.cache.store[id], s'.cache.store[id]);
    StepsOfStep(a, i);
    if !a.Accept? && a.i == i {
      if content <= s.conns[i].cashOut {
        CountedStays(hash, s.conns[i], s.cache, a);
      } else {
        OwnStepCatching(hash, s, a, i, id, content, left);
      }
    } else if Behind(s.conns[i], s.cache.store, id, |content|) {
      OtherStepCatching(hash, s, s', i, id, content);
    }
  }

  lemma GrowsIsLonger(e: Elem, e': Elem)
    requires Grows(e, e')
    ensures e.content <= e'.content
  {
  }

  lemma OtherStepCatching(hash: string -> int, s: Sys, s': Sys, i: nat, id: nat, content: string)
    requires i < |s.conns| && i < |s'.conns| && s'.conns[i] == s.conns[i]
    requires id < |s.cache.store| <= |s'.cache.store| && content <= s'.cache.store[id].content
    requires Behind(s.conns[i], s.cache.store, id, |content|) && ConnInv(hash, s'.conns[i], s'.cache.store)
    ensures Behind(s'.conns[i], s'.cache.store, id, |content|)
  {
    hide ConnInv, ReaderData, Parsed;
    ReaderPhase(hash, s'.conns[i], s'.cache.store);
  }

  lemma OwnStepCatching(hash: string -> int, s: Sys, a: Action, i: nat, id: nat, content: string, left: int)
    requires Possible(s, a) && !a.Accept? && a.i == i && Catching(hash, s, i, id, content, left)
    requires ConnInv(hash, s.conns[i], s.cache.store)
    requires !(content <= s.conns[i].cashOut) && (IsStepOf(a, i) && s.conns[i].reader.SendWrite? ==> a.ok)
    requires var s' := Apply(hash, s, a);
      && i < |s'.conns| && ConnInv(hash, s'.conns[i], s'.cache.store)
      && id < |s'.cache.store| && content <= s'.cache.store[id].content
    ensures Catching(hash, Apply(hash, s, a), i, id, content, left - (if IsStepOf(a, i) then 1 else 0))
  {
    hide ConnInv, StepsBehind, ReaderData, Wf, ReaderStep, LookAt, RefreshReady, DeleteUser, UserRead, ServerRead,
      Parsed, ServerMayDrain, UserMayDrain, DrainToServer, DrainToUser;
    var k, c, s' := s.conns[i], s.cache, Apply(hash, s, a);
    ReaderPhase(hash, k, c.store);
    ReaderOnlyReads(hash, k, c, a);
    if a.ReadCash? {
      StepCatchesUp(k, c, id, |content|, a.ok, a.taken);
    } else {
      LookStays(k, c, |content|);
    }
    BehindOrCaughtUp(hash, s', i, id, content);
  }

  lemma ReaderOnlyReads(hash: string -> int, k: Conn, c: Cache, a: Action)
    requires Wf(k.b, c) && InCache(hash, k, c.store) && !k.reader.Left? && !a.Accept? && PossibleAt(k, c, a)
    ensures a.ReadCash? || a.Look?
  {
    hide Wf, ReaderData, RefreshReady, Parsed;
  }

  lemma {:induction false} StaysCatching(hash: string -> int, run: seq<Sys>, actions: seq<Action>, n: nat, m: nat,
                                         i: nat, id: nat, content: string, left: int)
    requires IsHistory(hash, run, actions) && n <= m < |run|
    requires ReadsCache(run[n], i) && OwnInTurn(hash, run, actions, n, i)
    requires Catching(hash, run[n], i, id, content, left) && WritesSucceed(run, actions, n, m, i)
    ensures Catching(hash, run[m], i, id, content, left - OwnSteps(actions, n, m, i))
    decreases m - n
  {
    hide BaseInv, ConnInv, Possible, Apply, Catching, OwnInTurn, ReadsCache, IsStepOf;
    if n < m {
      StaysCatching(hash, run, actions, n, m - 1, i, id, content, left);
      var s, a := run[m - 1], actions[m - 1];
      assert run[m - 1 + 1] == Apply(hash, s, a);
      HistoryBase(hash, run, actions, m - 1);
      ReaderStaysInTurn(hash, run, actions, n, m - 1, i);
      ReaderStaysInTurn(hash, run, actions, n, m, i);
      StillThere(hash, s, i, id, content, left - OwnSteps(actions, n, m - 1, i));
      StillThere(hash, run[m], i, id, content, left);
      ConnKept(hash, run, actions, m - 1, i);
      ConnKept(hash, run, actions, m, i);
      StepCatching(hash, s, a, i, id, content, left - OwnSteps(actions, n, m - 1, i));
    }
  }

  lemma StillThere(hash: string -> int, s: Sys, i: nat, id: nat, content: string, left: int)
    ensures Catching(hash, s, i, id, content, left) ==> i < |s.conns|
    ensures ReadsCache(s, i) || Gone(s, i) ==> i < |s.conns|
  {
  }

  lemma ReaderHasElement(hash: string -> int, k: Conn, store: seq<Elem>)
    requires ConnInv(hash, k, store) && k.user && k.b.isDataGetCash
    ensures k.b.cashElement.Some? && k.b.cashElement.value < |store|
    ensures k.b.countByteReadFromCash <= |store[k.b.cashElement.value].content|
  {
    hide ConnInv, Parsed;
    ReaderPhase(hash, k, store);
  }

  lemma AtMostSoMany(k: Conn, goal: nat)
    ensures StepsBehind(k, goal) <= 3 * (goal - k.b.countByteReadFromCash) + 4
  {
  }

  lemma EndOfCatching(hash: string -> int, s: Sys, i: nat, id: nat, content: string, left: int, ok: bool, taken: nat)
    requires BaseInv(hash, s) && Catching(hash, s, i, id, content, left) && Wires(s.conns[i])
    ensures var k := s.conns[i];
      && (left <= 0 ==> content <= k.cashOut)
      && (content <= k.cashOut && k.cashWire.cuts == 0 ==> content <= k.cashWire.sent)
      && (!(content <= k.cashOut) ==> Possible(s, ReadCash(i, ok, taken)))
  {
    hide BaseInv, Wf, ReaderData, Subsequence;
    PointersAreGood(hash, s, i);
    hide Role;
  }

  /** From any state in which a connection that became a reader in turn is in its loop, and whether its
      element's origin is connected or leaves meanwhile: if none of its writes fails, then after at most
      three of its own steps for each byte that it has not counted yet, and four more, it has counted all
      that the element held; until then it does not leave and can always take another step; and its socket
      has taken all of it if no write was cut short. */
  lemma ReaderCatchesUp(hash: string -> int, run: seq<Sys>, actions: seq<Action>, n: nat, m: nat, i: nat, ok: bool,
                        taken: nat)
    requires IsHistory(hash, run, actions) && n <= m < |run|
    requires ReadsCache(run[n], i) && OwnInTurn(hash, run, actions, n, i) && !run[n].conns[i].reader.Left?
    requires WritesSucceed(run, actions, n, m, i)
    ensures var k := run[n].conns[i];
      && k.b.cashElement.Some? && k.b.cashElement.value < |run[n].cache.store| && i < |run[m].conns|
      && var content := run[n].cache.store[k.b.cashElement.value].content;
      var k' := run[m].conns[i];
      && k.b.countByteReadFromCash <= |content|
      && (OwnSteps(actions, n, m, i) >= 3 * (|content| - k.b.countByteReadFromCash) + 4 ==> content <= k'.cashOut)
      && (content <= k'.cashOut && k'.cashWire.cuts == 0 ==> content <= k'.cashWire.sent)
      && (!(content <= k'.cashOut) ==> Possible(run[m], ReadCash(i, ok, taken)))
  {
    hide Possible, Apply, ConnInv, OwnInTurn, WritesSucceed, Wf, BaseInv, InCache, StepsBehind, Catching;
    ConnKept(hash, run, actions, n, i);
    var k := run[n].conns[i];
    ReaderHasElement(hash, k, run[n].cache.store);
    var id := k.b.cashElement.value;
    var content := run[n].cache.store[id].content;
    BehindOrCaughtUp(hash, run[n], i, id, content);
    StaysCatching(hash, run, actions, n, m, i, id, content, StepsBehind(k, |content|));
    AtMostSoMany(k, |content|);
    StillThere(hash, run[m], i, id, content, StepsBehind(k, |content|) - OwnSteps(actions, n, m, i));
    HistoryBase(hash, run, actions, m);
    HistoryWires(hash, run, actions, m, i);
    EndOfCatching(hash, run[m], i, id, content, StepsBehind(k, |content|) - OwnSteps(actions, n, m, i), ok, taken);
  }

  // ----- When a reader leaves -----

  /** As long as its origin is connected and its waits and writes do not fail, a reader stays in its loop. */
  lemma StaysWhileConnected(k: Conn, c: Cache, taken: nat)
    requires Wf(k.b, c) && k.b.isDataGetCash && !k.reader.NoReader? && !k.reader.Left? && k.run && !AtFinal(k.reader)
    requires c.store[k.b.cashElement.value].serverConnected
    ensures var k' := ReaderStep(k, c, true, taken);
      k'.run && !k'.reader.NoReader? && !k'.reader.Left? && !AtFinal(k'.reader)
  {
    hide Cache.Wf, SendBuf, ProofSend, Written, NextPc, RefreshReady;
    NextStays(k, c.store[k.b.cashElement.value], RefreshReady(k.b, c).isReadyToSend);
  }

  lemma NextStays(k: Conn, e: Elem, ready: bool)
    requires !k.reader.NoReader? && !k.reader.Left? && k.run && !AtFinal(k.reader) && e.serverConnected
    ensures var pc := NextPc(k, e, ready, true); !pc.NoReader? && !pc.Left? && !AtFinal(pc)
  {
  }

  /** A wait that fails ends the rounds: with nothing unread the reader has left after two steps more, whether
      its origin is connected or not and whatever the steps return. */
  lemma FailedWaitLeaves(k: Conn, c: Cache, taken: nat, ok1: bool, ok2: bool)
    requires Wf(k.b, c) && k.b.isDataGetCash && k.reader.TestReady? && NothingUnread(k.b, c)
    ensures var k1 := ReaderStep(k, c, false, taken);
      Wf(k1.b, c) && k1.b.isDataGetCash && !k1.run &&
      var k2 := ReaderStep(k1, c, ok1, taken);
      Wf(k2.b, c) && k2.b.isDataGetCash &&
      var k3 := ReaderStep(k2, c, ok2, taken);
      k3.reader.Left? && !k3.reader.writeFailed && k3.cashOut == k.cashOut
  {
    hide Wf, NothingUnread, ReaderStep;
    QuietStep(k, c, false, taken);
    var k1 := ReaderStep(k, c, false, taken);
    QuietStep(k1, c, ok1, taken);
    QuietStep(ReaderStep(k1, c, ok1, taken), c, ok2, taken);
  }

  predicate NothingUnread(b: Buf, c: Cache)
    requires Wf(b, c) && b.isDataGetCash
  {
    !b.isReadyToSend && |c.store[b.cashElement.value].content| <= b.countByteReadFromCash
  }

  lemma QuietStep(k: Conn, c: Cache, ok: bool, taken: nat)
    requires Wf(k.b, c) && k.b.isDataGetCash && NothingUnread(k.b, c) && !k.reader.SendWrite? && !k.reader.SendProof?
    ensures var k' := ReaderStep(k, c, ok, taken);
      && k'.b == k.b && k'.cashOut == k.cashOut && k'.run == (k.run && (k.reader.TestReady? ==> ok))
      && k'.reader == NextPc(k, c.store[k.b.cashElement.value], false, ok)
  {
    hide Cache.Wf, NextPc, RefreshReady, NothingUnread, SendBuf, ProofSend;
    NotReady(k.b, c);
  }

  lemma NotReady(b: Buf, c: Cache)
    requires Wf(b, c) && b.isDataGetCash && NothingUnread(b, c)
    ensures RefreshReady(b, c) == b && !b.isReadyToSend
  {
    hide Cache.Wf;
  }
}
