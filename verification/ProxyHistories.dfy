/** Histories: what holds in all of them, and what holds of one connection as long as its own peers
    send in turn, whatever the others do. */
module ProxyHistories {
  import opened Wrappers
  import opened Parser
  import opened CacheSpec
  import opened BufferSpec
  import opened ProxySystem
  import opened ProxyInvariant
  import opened ProxySteps
  import opened ProxyRoles
  import opened ProxyOrder

  // ----- The other connections -----

  /** A reader is not disturbed when its element grows under it. */
  lemma ReaderSurvivesGrowth(k: Conn, e: Elem, e': Elem)
    requires ReaderData(k, e) && Grows(e, e')
    ensures ReaderData(k, e')
  {
    var at := k.b.countByteReadFromCash;
    assert e'.content[..at] == e.content[..at];
    if k.reader.SendProof? {
      var n := |k.reader.sent|;
      assert e'.content[at..at + n] == e.content[at..at + n];
      assert e'.content[..at + n] == e.content[..at + n];
    }
  }

  lemma OtherKept(hash: string -> int, k: Conn, store: seq<Elem>, store': seq<Elem>)
    requires ConnInv(hash, k, store) && |store| <= |store'|
    requires forall id | 0 <= id < |store| :: Grows(store[id], store'[id])
    requires k.b.isAddDataToCash && k.b.cashElement.Some? && k.b.cashElement.value < |store| ==>
      SameResponse(store[k.b.cashElement.value], store'[k.b.cashElement.value])
    ensures ConnInv(hash, k, store')
  {
    hide ReaderData, HasHeading, Heading, ParsingHeading, Response, ResponseFramed, RequestFramed, Relayed;
    if k.b.cashElement.Some? && k.b.cashElement.value < |store| {
      var id := k.b.cashElement.value;
      assert Grows(store[id], store'[id]);
      if InCache(hash, k, store) {
        ReaderSurvivesGrowth(k, store[id], store'[id]);
      }
    }
  }

  // ----- Counting readers -----

  lemma ReadersAfter(conns: seq<Conn>, i: nat, k: Conn, id: nat)
    requires i < |conns|
    ensures |Readers(conns[i := k], id)| == |Readers(conns, id)| - Reads(conns[i], id) + Reads(k, id)
  {
    hide IsReaderOf;
    var rest := set j: nat | j < |conns| && j != i && IsReaderOf(conns[j], id);
    assert Readers(conns, id) == if IsReaderOf(conns[i], id) then rest + {i} else rest;
    assert Readers(conns[i := k], id) == if IsReaderOf(k, id) then rest + {i} else rest by {
      forall j: nat ensures j in Readers(conns[i := k], id) <==> j in rest || (j == i && IsReaderOf(k, id)) {
      }
    }
  }

  lemma ReadersAfterAccept(conns: seq<Conn>, id: nat)
    ensures Readers(conns + [ACCEPTED], id) == Readers(conns, id)
  {
  }

  lemma NobodyReadsYet(conns: seq<Conn>, store: seq<Elem>)
    requires forall i | 0 <= i < |conns| :: Role(conns[i], store)
    ensures Readers(conns, |store|) == {}
  {
    forall i | 0 <= i < |conns| ensures !IsReaderOf(conns[i], |store|) {
      assert Role(conns[i], store);
    }
  }

  // ----- One action on the whole system -----

  lemma CountsKept(s: Sys, i: nat, k: Conn, c: Cache)
    requires CountsAgree(s) && RolesInv(s) && i < |s.conns| && Effect(s.conns[i], s.cache.store, k, c.store)
    ensures CountsAgree(Recorded(s, i, k, c))
  {
    hide Role, Readers;
    var conns' := s.conns[i := k];
    forall id | 0 <= id < |c.store| ensures c.store[id].users == |Readers(conns', id)| {
      ReadersAfter(s.conns, i, k, id);
      if id == |s.cache.store| {
        NobodyReadsYet(s.conns, s.cache.store);
      }
    }
  }

  /** The part of an effect that concerns who writes what. */
  lemma WriterEffect(k: Conn, store: seq<Elem>, k': Conn, store': seq<Elem>)
    requires Effect(k, store, k', store')
    ensures |store| <= |store'| <= |store| + 1
    ensures |store'| > |store| ==> !k.b.isAddDataToCash && WritesTo(k', |store|)
    ensures |store'| == |store| ==> k'.b.isAddDataToCash == k.b.isAddDataToCash
    ensures |store'| == |store| && k.b.isAddDataToCash ==> k'.b.cashElement == k.b.cashElement
  {
    hide Grows, SameResponse, Spared, IsReaderOf;
  }

  lemma WritersInRange(s: Sys)
    requires RolesInv(s)
    ensures forall j | 0 <= j < |s.conns| && s.conns[j].b.isAddDataToCash ::
      s.conns[j].b.cashElement.Some? && s.conns[j].b.cashElement.value < |s.cache.store|
  {
    forall j | 0 <= j < |s.conns| && s.conns[j].b.isAddDataToCash
      ensures s.conns[j].b.cashElement.Some? && s.conns[j].b.cashElement.value < |s.cache.store|
    {
      assert Role(s.conns[j], s.cache.store);
    }
  }

  lemma WritersKept(s: Sys, i: nat, k: Conn, c: Cache)
    requires WritersAgree(s) && RolesInv(s) && i < |s.conns| && Effect(s.conns[i], s.cache.store, k, c.store)
    ensures WritersAgree(Recorded(s, i, k, c))
  {
    hide RolesInv, Effect;
    WritersInRange(s);
    WriterEffect(s.conns[i], s.cache.store, k, c.store);
  }

  /** What an action of connection `i` means for an element that another connection writes. */
  lemma OtherWriterSpared(s: Sys, i: nat, k: Conn, store': seq<Elem>, j: nat)
    requires WritersAgree(s) && i < |s.conns| && j < |s.conns| && i != j
    requires Effect(s.conns[i], s.cache.store, k, store')
    ensures |s.cache.store| <= |store'|
    ensures forall id | 0 <= id < |s.cache.store| :: Grows(s.cache.store[id], store'[id])
    ensures var b := s.conns[j].b;
      b.isAddDataToCash && b.cashElement.Some? && b.cashElement.value < |s.cache.store| ==>
        SameResponse(s.cache.store[b.cashElement.value], store'[b.cashElement.value])
  {
    hide Grows, SameResponse, Spared, IsReaderOf;
    var b := s.conns[j].b;
    if b.isAddDataToCash && b.cashElement.Some? && b.cashElement.value < |s.cache.store| {
      assert s.writers[b.cashElement.value] == j;
      assert !WritesTo(s.conns[i], b.cashElement.value);
    }
  }

  lemma RoleSurvives(k: Conn, store: seq<Elem>, store': seq<Elem>)
    requires Role(k, store) && |store| <= |store'|
    requires k.b.isAddDataToCash && k.b.cashElement.Some? && k.b.cashElement.value < |store| ==>
      SameResponse(store[k.b.cashElement.value], store'[k.b.cashElement.value])
    ensures Role(k, store')
  {
  }

  lemma RolesKept(s: Sys, i: nat, k: Conn, c: Cache)
    requires RolesInv(s) && WritersAgree(s) && i < |s.conns|
    requires Done(s.conns[i], s.cache.store, k, c.store)
    ensures RolesInv(Recorded(s, i, k, c))
  {
    hide WritersAgree, Role, Effect, SameResponse;
    forall j | 0 <= j < |s.conns| && j != i ensures Role(s.conns[j], c.store) {
      assert Role(s.conns[j], s.cache.store);
      OtherWriterSpared(s, i, k, c.store, j);
      RoleSurvives(s.conns[j], s.cache.store, c.store);
    }
  }

  lemma FreshConn(hash: string -> int, store: seq<Elem>)
    ensures ConnInv(hash, ACCEPTED, store) && Role(ACCEPTED, store)
  {
    assert InRequestHeading(ACCEPTED);
  }

  lemma AcceptKeepsWriters(s: Sys)
    requires WritersAgree(s)
    ensures WritersAgree(s.(conns := s.conns + [ACCEPTED]))
  {
  }

  lemma AcceptKeeps(hash: string -> int, s: Sys)
    requires BaseInv(hash, s)
    ensures BaseInv(hash, s.(conns := s.conns + [ACCEPTED]))
  {
    hide CacheInv, Role, HashesAgree, Readers, WritersAgree;
    AcceptKeepsWriters(s);
    FreshConn(hash, s.cache.store);
    forall id | 0 <= id < |s.cache.store|
      ensures s.cache.store[id].users == |Readers(s.conns + [ACCEPTED], id)|
    {
      ReadersAfterAccept(s.conns, id);
    }
  }

  /** In every state of every history, every pointer that a connection's buffer follows is good. */
  lemma PointersAreGood(hash: string -> int, s: Sys, i: nat)
    requires BaseInv(hash, s) && i < |s.conns|
    ensures Role(s.conns[i], s.cache.store)
    ensures Wf(s.conns[i].b, s.cache) && HasParsedRequest(s.conns[i].b)
    ensures !s.conns[i].reader.NoReader? ==> s.conns[i].b.isDataGetCash
  {
    hide HashesAgree, CountsAgree, WritersAgree;
    assert s.cache.Wf() && Role(s.conns[i], s.cache.store);
    hide CacheInv, RolesInv, Cache.Wf;
    RoleIsWf(s.conns[i], s.cache);
  }

  /** What one action of connection `i` does, for whoever needs it. */
  lemma ActionOnSystem(hash: string -> int, s: Sys, a: Action)
    requires BaseInv(hash, s) && Possible(s, a) && !a.Accept?
    ensures var (k, c) := ApplyAt(hash, s.conns[a.i], s.cache, a);
      && CacheInv(c) && HashesAgree(hash, c.store) && Done(s.conns[a.i], s.cache.store, k, c.store)
  {
    PointersAreGood(hash, s, a.i);
    assert s.cache.Wf();
    hide CacheInv, RolesInv, HashesAgree, CountsAgree, WritersAgree, ApplyAt, PossibleAt, Done, Role, Cache.Wf, Wf;
    ActionKeepsCache(hash, s.conns[a.i], s.cache, a);
    ActionDone(hash, s.conns[a.i], s.cache, a);
  }

  /** Any action, in turn or not, keeps what holds in every history. */
  lemma BaseKept(hash: string -> int, s: Sys, a: Action)
    requires BaseInv(hash, s) && Possible(s, a)
    ensures BaseInv(hash, Apply(hash, s, a))
  {
    if a.Accept? {
      AcceptKeeps(hash, s);
    } else {
      ActionOnSystem(hash, s, a);
      var (k, c) := ApplyAt(hash, s.conns[a.i], s.cache, a);
      hide CacheInv, RolesInv, HashesAgree, CountsAgree, WritersAgree, ApplyAt, PossibleAt, Wf, Effect, Role;
      CountsKept(s, a.i, k, c);
      WritersKept(s, a.i, k, c);
      RolesKept(s, a.i, k, c);
    }
  }

  lemma InitialInv(hash: string -> int)
    ensures SysInv(hash, INITIAL)
  {
    hide CacheInv, HashesAgree, CountsAgree, WritersAgree, Role, ConnInv;
    EmptyCache(hash);
    NobodyYet();
  }

  lemma EmptyCache(hash: string -> int)
    ensures CacheInv(EMPTY) && HashesAgree(hash, EMPTY.store)
  {
  }

  lemma NobodyYet()
    ensures CountsAgree(INITIAL) && WritersAgree(INITIAL)
  {
    hide Readers;
  }

  lemma {:induction false} HistoryBase(hash: string -> int, run: seq<Sys>, actions: seq<Action>, n: nat)
    requires IsHistory(hash, run, actions) && n < |run|
    ensures BaseInv(hash, run[n])
  {
    hide Possible, Apply, BaseInv;
    if n == 0 {
      assert BaseInv(hash, INITIAL) by { InitialInv(hash); }
    } else {
      HistoryBase(hash, run, actions, n - 1);
      assert run[n - 1 + 1] == Apply(hash, run[n - 1], actions[n - 1]);
      BaseKept(hash, run[n - 1], actions[n - 1]);
    }
  }

  // ----- One connection among others -----

  /** What others do keeps the invariant of connection `i`, in turn or not. */
  lemma OthersKeep(hash: string -> int, s: Sys, a: Action, i: nat)
    requires BaseInv(hash, s) && Possible(s, a) && i < |s.conns| && ConnInv(hash, s.conns[i], s.cache.store)
    requires a.Accept? || a.i != i
    ensures var s' := Apply(hash, s, a);
      && i < |s'.conns| && s'.conns[i] == s.conns[i] && ConnInv(hash, s'.conns[i], s'.cache.store)
  {
    hide ConnInv, CacheInv, RolesInv, HashesAgree, CountsAgree, WritersAgree, ApplyAt, PossibleAt, Wf, Effect, Role,
      Grows, SameResponse;
    if !a.Accept? {
      ActionOnSystem(hash, s, a);
      var (k, c) := ApplyAt(hash, s.conns[a.i], s.cache, a);
      OtherWriterSpared(s, a.i, k, c.store, i);
      OtherKept(hash, s.conns[i], s.cache.store, c.store);
    }
  }

  /** The isolation of connections, step by step: from any state of a history, any action keeps the
      invariant of connection `i` exactly if it is another connection's or comes in turn. */
  lemma KeptIffOthersOrInTurn(hash: string -> int, s: Sys, a: Action, i: nat)
    requires BaseInv(hash, s) && Possible(s, a) && i < |s.conns| && ConnInv(hash, s.conns[i], s.cache.store)
    ensures var s' := Apply(hash, s, a);
      && i < |s'.conns|
      && (ConnInv(hash, s'.conns[i], s'.cache.store) <==> a.Accept? || a.i != i || Orderly(hash, s, a))
  {
    hide ConnInv, CacheInv, RolesInv, HashesAgree, CountsAgree, WritersAgree, ApplyAt, PossibleAt, InTurn, Wf;
    if a.Accept? || a.i != i {
      OthersKeep(hash, s, a, i);
    } else {
      InTurnIffKept(hash, s.conns[i], s.cache, a);
    }
  }

  /** Over histories: a connection keeps its invariant as long as its own chunks come in turn, whatever
      is sent on other connections. */
  lemma {:induction false} ConnKept(hash: string -> int, run: seq<Sys>, actions: seq<Action>, n: nat, i: nat)
    requires IsHistory(hash, run, actions) && n < |run| && i < |run[n].conns|
    requires OwnInTurn(hash, run, actions, n, i)
    ensures ConnInv(hash, run[n].conns[i], run[n].cache.store)
  {
    hide Possible, Orderly, Apply, BaseInv, ConnInv;
    if n > 0 {
      var s, a := run[n - 1], actions[n - 1];
      assert run[n - 1 + 1] == Apply(hash, s, a);
      HistoryBase(hash, run, actions, n - 1);
      if i < |s.conns| {
        ConnKept(hash, run, actions, n - 1, i);
        KeptIffOthersOrInTurn(hash, s, a, i);
      } else {
        NewConnIsFresh(hash, s, a, i);
      }
    }
  }

  lemma NewConnIsFresh(hash: string -> int, s: Sys, a: Action, i: nat)
    requires Possible(s, a) && |s.conns| <= i < |Apply(hash, s, a).conns|
    ensures var s' := Apply(hash, s, a); s'.conns[i] == ACCEPTED && ConnInv(hash, s'.conns[i], s'.cache.store)
  {
    hide Wf, PossibleAt, ApplyAt, ConnInv;
    FreshConn(hash, s.cache.store);
  }

  /** And no longer: it keeps it throughout exactly if all its own chunks come in turn. */
  lemma ConnIsSafeIffOwnInTurn(hash: string -> int, run: seq<Sys>, actions: seq<Action>, i: nat)
    requires IsHistory(hash, run, actions)
    ensures (forall n | 0 <= n < |run| && i < |run[n].conns| :: ConnInv(hash, run[n].conns[i], run[n].cache.store))
      <==> OwnInTurn(hash, run, actions, |actions|, i)
  {
    hide Possible, Orderly, Apply, BaseInv, ConnInv;
    if forall n | 0 <= n < |run| && i < |run[n].conns| :: ConnInv(hash, run[n].conns[i], run[n].cache.store) {
      forall j | 0 <= j < |actions| && !actions[j].Accept? && actions[j].i == i
        ensures Possible(run[j], actions[j]) && Orderly(hash, run[j], actions[j])
      {
        HistoryBase(hash, run, actions, j);
        OwnActionHasConn(run[j], actions[j]);
        assert run[j + 1] == Apply(hash, run[j], actions[j]);
        KeptIffOthersOrInTurn(hash, run[j], actions[j], i);
      }
    }
    if OwnInTurn(hash, run, actions, |actions|, i) {
      forall n | 0 <= n < |run| && i < |run[n].conns| ensures ConnInv(hash, run[n].conns[i], run[n].cache.store) {
        ConnKept(hash, run, actions, n, i);
      }
    }
  }

  lemma OwnActionHasConn(s: Sys, a: Action)
    requires Possible(s, a) && !a.Accept?
    ensures a.i < |s.conns|
  {
  }

  /** The chunks of the connection that caches element `id` have come in their senders' turn. */
  ghost predicate WriterInTurn(hash: string -> int, run: seq<Sys>, actions: seq<Action>, n: nat, id: nat)
    requires n <= |actions| && n < |run|
  {
    forall w | 0 <= w < |run[n].conns| && WritesTo(run[n].conns[w], id) :: OwnInTurn(hash, run, actions, n, w)
  }

  /** In every history each element has exactly one connection that caches it; and as long as that
      connection's own chunks come in turn, it keeps its invariant. */
  lemma WriterKept(hash: string -> int, run: seq<Sys>, actions: seq<Action>, n: nat, id: nat)
    requires IsHistory(hash, run, actions) && n < |run| && id < |run[n].cache.store|
    ensures id < |run[n].writers| && run[n].writers[id] < |run[n].conns|
    ensures forall i | 0 <= i < |run[n].conns| :: WritesTo(run[n].conns[i], id) <==> i == run[n].writers[id]
    ensures WriterInTurn(hash, run, actions, n, id) ==>
      ConnInv(hash, run[n].conns[run[n].writers[id]], run[n].cache.store)
  {
    HistoryBase(hash, run, actions, n);
    hide IsHistory, CacheInv, RolesInv, HashesAgree, CountsAgree, OwnInTurn, ConnInv;
    if WriterInTurn(hash, run, actions, n, id) {
      ConnKept(hash, run, actions, n, run[n].writers[id]);
    }
  }

  // ----- The whole system -----

  /** From a state with the system invariant, any action keeps it exactly if it is orderly. */
  lemma OrderlyIffKept(hash: string -> int, s: Sys, a: Action)
    requires SysInv(hash, s) && Possible(s, a)
    ensures SysInv(hash, Apply(hash, s, a)) <==> Orderly(hash, s, a)
  {
    hide BaseInv, ConnInv, Apply, Possible, Orderly;
    var s' := Apply(hash, s, a);
    BaseKept(hash, s, a);
    if Orderly(hash, s, a) {
      forall i | 0 <= i < |s'.conns| ensures ConnInv(hash, s'.conns[i], s'.cache.store) {
        if i < |s.conns| {
          KeptIffOthersOrInTurn(hash, s, a, i);
        } else {
          NewConnIsFresh(hash, s, a, i);
        }
      }
    } else {
      DisorderHasConn(hash, s, a);
      KeptIffOthersOrInTurn(hash, s, a, a.i);
    }
  }

  lemma DisorderHasConn(hash: string -> int, s: Sys, a: Action)
    requires Possible(s, a) && !Orderly(hash, s, a)
    ensures !a.Accept? && a.i < |s.conns|
  {
    hide PossibleAt, InTurn, Wf;
  }

  /** So a history keeps the system invariant throughout exactly if every chunk in it comes in turn. */
  lemma {:induction false} HistoryIsSafeIffOrderly(hash: string -> int, run: seq<Sys>, actions: seq<Action>)
    requires IsHistory(hash, run, actions)
    ensures (forall j | 0 <= j < |run| :: SysInv(hash, run[j]))
      <==> (forall j | 0 <= j < |actions| :: Possible(run[j], actions[j]) && Orderly(hash, run[j], actions[j]))
  {
    hide SysInv, Possible, Orderly, Apply;
    if forall j | 0 <= j < |run| :: SysInv(hash, run[j]) {
      forall j | 0 <= j < |actions| ensures Possible(run[j], actions[j]) && Orderly(hash, run[j], actions[j]) {
        assert SysInv(hash, run[j]) && SysInv(hash, run[j + 1]);
        OrderlyIffKept(hash, run[j], actions[j]);
      }
    }
    if forall j | 0 <= j < |actions| :: Possible(run[j], actions[j]) && Orderly(hash, run[j], actions[j]) {
      forall n | 0 <= n < |run| ensures SysInv(hash, run[n]) {
        OrderlyPrefixIsSafe(hash, run, actions, n);
      }
    }
  }

  lemma {:induction false} OrderlyPrefixIsSafe(hash: string -> int, run: seq<Sys>, actions: seq<Action>, n: nat)
    requires IsHistory(hash, run, actions) && n < |run|
    requires forall j | 0 <= j < n :: Possible(run[j], actions[j]) && Orderly(hash, run[j], actions[j])
    ensures SysInv(hash, run[n])
  {
    hide SysInv, Possible, Orderly, Apply;
    if n == 0 {
      assert SysInv(hash, INITIAL) by { InitialInv(hash); }
    } else {
      OrderlyPrefixIsSafe(hash, run, actions, n - 1);
      assert run[n - 1 + 1] == Apply(hash, run[n - 1], actions[n - 1]);
      OrderlyIffKept(hash, run[n - 1], actions[n - 1]);
    }
  }
}
