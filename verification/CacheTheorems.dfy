/** The cache over whole histories, whatever anybody sends and when: the byte budget, elements pinned by
    their readers, and a list that behaves as a map ordered by recency. */
module CacheTheorems {
  import opened Wrappers
  import opened Parser
  import opened CacheSpec
  import opened BufferSpec
  import opened ProxySystem
  import opened ProxyInvariant
  import opened ProxyRoles
  import opened ProxyHistories

  // ----- The byte budget -----

  function SumHeld(c: Cache, n: nat): nat
    requires c.Wf() && n <= |c.list|
  {
    if n == 0 then 0 else SumHeld(c, n - 1) + c.store[c.list[n - 1]].Held()
  }

  function SumReserved(c: Cache, n: nat): nat
    requires c.Wf() && n <= |c.list|
  {
    if n == 0 then 0 else SumReserved(c, n - 1) + c.store[c.list[n - 1]].reserved
  }

  /** The bytes the cached elements occupy, and the bytes that were reserved for them. */
  function HeldInCache(c: Cache): nat
    requires c.Wf()
  {
    SumHeld(c, |c.list|)
  }

  function ReservedInCache(c: Cache): nat
    requires c.Wf()
  {
    SumReserved(c, |c.list|)
  }

  /** What evicted elements were never credited back. */
  function Unreturned(store: seq<Elem>): int {
    if store == [] then 0
    else
      var e := store[|store| - 1];
      Unreturned(store[..|store| - 1]) + (if e.refund.Some? then e.reserved - e.refund.value else 0)
  }

  lemma {:induction false} UnreturnedOfUpdate(store: seq<Elem>, id: nat, e: Elem)
    requires id < |store| && store[id].refund.None? && e.refund.Some? && e.refund.value == e.reserved
    ensures Unreturned(store[id := e]) == Unreturned(store)
  {
    var n := |store| - 1;
    if id == n {
      assert store[id := e][..n] == store[..n];
    } else {
      assert store[id := e][..n] == store[..n][id := e];
      UnreturnedOfUpdate(store[..n], id, e);
    }
  }

  lemma {:induction false} AllEvicted(store: seq<Elem>)
    requires forall id | 0 <= id < |store| :: store[id].refund.Some?
    ensures TotalOutstanding(store) == Unreturned(store)
  {
    if store != [] { AllEvicted(store[..|store| - 1]); }
  }

  /** Crossing the last listed element off: it counts as evicted with a full refund. */
  function CrossedOff(store: seq<Elem>, id: nat): seq<Elem>
    requires id < |store|
  {
    store[id := store[id].(refund := Some(store[id].reserved))]
  }

  lemma {:induction false} SumsDependOnPrefix(c: Cache, c': Cache, n: nat)
    requires c.Wf() && c'.Wf() && n <= |c.list| && n <= |c'.list|
    requires forall k | 0 <= k < n ::
      c'.list[k] == c.list[k] && c'.store[c'.list[k]].reserved == c.store[c.list[k]].reserved
    ensures SumReserved(c', n) == SumReserved(c, n)
  {
    if n > 0 { SumsDependOnPrefix(c, c', n - 1); }
  }

  lemma CrossingOffKeepsLive(c: Cache)
    requires c.Wf() && ListedIffLive(c) && c.list != []
    requires forall i, j | 0 <= i < j < |c.list| :: c.list[i] != c.list[j]
    ensures var n := |c.list|;
      ListedIffLive(Cache(CrossedOff(c.store, c.list[n - 1]), c.list[..n - 1], c.bytes, c.clock))
  {
    var n, id := |c.list|, c.list[|c.list| - 1];
    var list', store' := c.list[..n - 1], CrossedOff(c.store, id);
    forall x | 0 <= x < |store'| ensures x in list' <==> store'[x].refund.None? {
      if x in c.list && x != id {
        var k :| 0 <= k < n && c.list[k] == x;
        assert list'[k] == x;
      }
    }
  }

  /** What the store still holds of the budget is the reservations of the listed elements plus what
      evicted ones never gave back. */
  lemma {:induction false} OutstandingSplits(c: Cache)
    requires c.Wf() && ListedIffLive(c)
    requires forall i, j | 0 <= i < j < |c.list| :: c.list[i] != c.list[j]
    ensures TotalOutstanding(c.store) == ReservedInCache(c) + Unreturned(c.store)
    decreases |c.list|
  {
    var n := |c.list|;
    if n == 0 {
      AllEvicted(c.store);
    } else {
      var id := c.list[n - 1];
      assert id in c.list;
      var c' := Cache(CrossedOff(c.store, id), c.list[..n - 1], c.bytes, c.clock);
      CrossingOffKeepsLive(c);
      assert c.store[id].refund.None?;
      hide ListedIffLive;
      OutstandingSplits(c');
      SumsDependOnPrefix(c, c', n - 1);
      TotalOfUpdate(c.store, id, c'.store[id]);
      UnreturnedOfUpdate(c.store, id, c'.store[id]);
    }
  }

  lemma {:induction false} HeldWithinReserved(c: Cache, n: nat)
    requires c.Wf() && n <= |c.list|
    requires forall id | 0 <= id < |c.store| :: c.store[id].WithinReservation()
    ensures SumHeld(c, n) <= SumReserved(c, n)
  {
    if n > 0 {
      HeldWithinReserved(c, n - 1);
      assert c.store[c.list[n - 1]].WithinReservation();
    }
  }

  /** An evicted element was credited with all it had reserved. */
  ghost predicate FullyReturned(store: seq<Elem>) {
    forall id | 0 <= id < |store| && store[id].refund.Some? :: store[id].refund.value == store[id].reserved
  }

  lemma {:induction false} UnreturnedIsSlack(store: seq<Elem>)
    requires RefundsBounded(store)
    requires forall id | 0 <= id < |store| :: store[id].WithinReservation()
    ensures Unreturned(store) >= 0
    ensures Unreturned(store) == 0 <==> FullyReturned(store)
  {
    if store != [] {
      var n := |store| - 1;
      var init, e := store[..n], store[n];
      UnreturnedIsSlack(init);
      assert store[n].WithinReservation();
      if e.refund.Some? { assert e.refund.value <= e.Held(); }
      if FullyReturned(store) {
        assert forall id | 0 <= id < n :: init[id] == store[id];
        assert FullyReturned(init);
      }
      if Unreturned(store) == 0 {
        assert forall id | 0 <= id < n :: store[id] == init[id];
        assert FullyReturned(store);
      }
    }
  }

  /** The budget counter of the cache, in every history, whatever anybody sends and when: it stays under
      its limit, and it is exactly the reservations of the cached elements plus what evicted elements
      never gave back. */
  lemma BudgetIsExact(hash: string -> int, run: seq<Sys>, actions: seq<Action>, n: nat)
    requires IsHistory(hash, run, actions) && n < |run|
    ensures var c := run[n].cache;
      c.Wf() && c.bytes < MAX_CASH_SIZE && c.bytes == ReservedInCache(c) + Unreturned(c.store)
  {
    HistoryBase(hash, run, actions, n);
    hide IsHistory, CountsAgree, HashesAgree, WritersAgree, RolesInv;
    var c := run[n].cache;
    ListIsDistinct(c);
    OutstandingSplits(c);
  }

  /** If no element ever outgrew its reservation, the bytes really held are within the reserved
      bytes, those within the counter, and the counter under the limit. The counter is the reserved
      bytes exactly if each evicted element had filled its reservation by the time it was evicted. */
  lemma BudgetIsReal(hash: string -> int, run: seq<Sys>, actions: seq<Action>, n: nat)
    requires IsHistory(hash, run, actions) && n < |run|
    requires forall id | 0 <= id < |run[n].cache.store| :: run[n].cache.store[id].WithinReservation()
    ensures var c := run[n].cache;
      && c.Wf()
      && HeldInCache(c) <= ReservedInCache(c) <= c.bytes < MAX_CASH_SIZE
      && (c.bytes == ReservedInCache(c) <==> FullyReturned(c.store))
  {
    BudgetIsExact(hash, run, actions, n);
    HistoryBase(hash, run, actions, n);
    var c := run[n].cache;
    assert RefundsBounded(c.store);
    hide BaseInv, CacheInv, IsHistory;
    UnreturnedIsSlack(c.store);
    HeldWithinReserved(c, |c.list|);
  }

  /** The assumption of `BudgetIsReal`, as the origin sees it: if the connection that caches an element
      is in turn, the element is within its reservation exactly if its origin has sent no more than it
      announced. */
  lemma WithinReservationIffNoSurplus(hash: string -> int, run: seq<Sys>, actions: seq<Action>, n: nat, id: nat)
    requires IsHistory(hash, run, actions) && n < |run| && id < |run[n].cache.store|
    requires WriterInTurn(hash, run, actions, n, id)
    ensures var s := run[n];
      && id < |s.writers| && s.writers[id] < |s.conns|
      && var k := s.conns[s.writers[id]];
      && HasHeading(k.respIn)
      && (s.cache.store[id].WithinReservation() <==> |k.respIn| <= Due(k.respIn))
  {
    WriterKept(hash, run, actions, n, id);
    hide IsHistory, WriterInTurn, InSomePhase, Owned, HasHeading, Heading, Response;
  }

  lemma OneElementSums(e: Elem, bytes: int, clock: nat)
    ensures HeldInCache(Cache([e], [0], bytes, clock)) == e.Held()
    ensures ReservedInCache(Cache([e], [0], bytes, clock)) == e.reserved
  {
    var c := Cache([e], [0], bytes, clock);
    assert SumHeld(c, 0) == 0 && SumReserved(c, 0) == 0;
  }

  // ----- Readers pin their elements -----

  /** The user count of an element is the number of connections that are reading it. */
  lemma CountIsNumberOfReaders(hash: string -> int, run: seq<Sys>, actions: seq<Action>, n: nat, id: nat)
    requires IsHistory(hash, run, actions) && n < |run| && id < |run[n].cache.store|
    ensures run[n].cache.store[id].users == |Readers(run[n].conns, id)|
  {
    HistoryBase(hash, run, actions, n);
    hide IsHistory, CacheInv, RolesInv, HashesAgree, WritersAgree;
  }

  /** Whatever anybody does, an element that is being read stays in the list. */
  lemma StepSparesReaders(hash: string -> int, s: Sys, a: Action, id: nat)
    requires BaseInv(hash, s) && Possible(s, a)
    requires id in s.cache.list && Readers(s.conns, id) != {}
    ensures id in Apply(hash, s, a).cache.list
  {
    ListedInUse(hash, s, id);
    if !a.Accept? {
      ActionOnSystem(hash, s, a);
      var (k, c) := ApplyAt(hash, s.conns[a.i], s.cache, a);
      hide BaseInv, CacheInv, ApplyAt, PossibleAt, HashesAgree, Readers, Role, Wf, Grows, SameResponse;
      assert Spared(s.cache.store[id], c.store[id]);
      LiveIsListed(c, id);
    }
  }

  lemma ListedInUse(hash: string -> int, s: Sys, id: nat)
    requires BaseInv(hash, s) && id in s.cache.list && Readers(s.conns, id) != {}
    ensures id < |s.cache.store| && s.cache.store[id].users > 0 && s.cache.store[id].refund.None?
  {
    hide HashesAgree, WritersAgree, RolesInv, Readers;
    assert s.cache.Wf() && ListedIffLive(s.cache);
    assert s.cache.store[id].users == |Readers(s.conns, id)| > 0;
  }

  lemma LiveIsListed(c: Cache, id: nat)
    requires CacheInv(c) && id < |c.store| && c.store[id].refund.None?
    ensures id in c.list
  {
    assert ListedIffLive(c);
  }

  /** An element stays cached for as long as somebody is reading it. */
  lemma {:induction false} ReadElementsStay(hash: string -> int, run: seq<Sys>, actions: seq<Action>, n: nat, m: nat,
                                            id: nat)
    requires IsHistory(hash, run, actions) && n <= m < |run|
    requires id in run[n].cache.list
    requires forall j | n <= j < m :: Readers(run[j].conns, id) != {}
    ensures id in run[m].cache.list
    decreases m - n
  {
    hide BaseInv, Apply, Possible, Readers;
    if n < m {
      ReadElementsStay(hash, run, actions, n, m - 1, id);
      HistoryBase(hash, run, actions, m - 1);
      assert run[m - 1 + 1] == Apply(hash, run[m - 1], actions[m - 1]);
      StepSparesReaders(hash, run[m - 1], actions[m - 1], id);
    }
  }

  // ----- The list as a map -----

  /** The map from hash to element that the list stands for. */
  ghost predicate Caches(c: Cache, h: int, id: nat)
    requires c.Wf()
  {
    id in c.list && c.store[id].hash == h
  }

  /** Lookup in the list is lookup in that map: it finds the one listed element with the hash. */
  lemma FindIsLookup(c: Cache, h: int)
    requires CacheInv(c)
    ensures forall id: nat :: Find(c, h).1 == Some(id) <==> Caches(c, h, id)
    ensures Find(c, h).1.None? <==> forall id: nat :: !Caches(c, h, id)
  {
    var p := Scan(c, h, 0);
    if p < |c.list| {
      assert c.list[p] in c.list;
      HashesDifferFrom(c, p);
    } else {
      ScanMiss(c, h);
    }
  }

  /** A hit changes neither the map nor the order of the other elements; it only makes its element
      the most recent one. */
  lemma HitOnlyReorders(c: Cache, h: int)
    requires CacheInv(c) && Contains(c, h)
    ensures var c' := Find(c, h).0;
      && (forall x, id: nat :: Caches(c', x, id) <==> Caches(c, x, id))
      && c'.list == Without(c.list, Scan(c, h, 0)) + [Find(c, h).1.value]
      && c'.store[Find(c, h).1.value].lastTouch == c.clock
      && c'.bytes == c.bytes
  {
    FindKeepsInv(c, h);
    hide CacheInv;
  }

  /** Element `x` comes before element `y` in the list. */
  ghost predicate Before(c: Cache, x: nat, y: nat) {
    exists p, q :: 0 <= p < q < |c.list| && c.list[p] == x && c.list[q] == y
  }

  lemma BeforeIsOlder(c: Cache, x: nat, y: nat)
    requires c.Wf() && OrderedByTouch(c) && x in c.list && y in c.list
    ensures Before(c, x, y) <==> c.store[x].lastTouch < c.store[y].lastTouch
  {
    var p :| 0 <= p < |c.list| && c.list[p] == x;
    var q :| 0 <= q < |c.list| && c.list[q] == y;
    if Before(c, x, y) {
      var p', q' :| 0 <= p' < q' < |c.list| && c.list[p'] == x && c.list[q'] == y;
    }
  }

  /** Whatever is evicted, the others keep their relative order. */
  lemma SurvivorsKeepOrder(c: Cache, c': Cache)
    requires CacheInv(c) && CacheInv(c') && OnlyEvicted(c.store, c'.store)
    ensures forall x, y: nat | x in c.list && y in c.list && x in c'.list && y in c'.list ::
      Before(c', x, y) <==> Before(c, x, y)
  {
    forall x, y: nat | x in c.list && y in c.list && x in c'.list && y in c'.list
      ensures Before(c', x, y) <==> Before(c, x, y)
    {
      assert x < |c.store| && y < |c.store|;
      assert Evicted(c.store[x], c'.store[x]) && Evicted(c.store[y], c'.store[y]);
      BeforeIsOlder(c, x, y);
      BeforeIsOlder(c', x, y);
    }
  }

  /** An accepted add maps the hash to the new element; every other entry was there before, and an
      entry is lost only if its element had no users. Those that stay keep their order. */
  lemma AddExtendsTheMap(c: Cache, request: string, h: int, size: nat)
    requires CacheInv(c) && !Contains(c, h)
    ensures var (c', id) := Add(c, request, h, size);
      && (id.Some? ==> Caches(c', h, id.value) && c'.list[|c'.list| - 1] == id.value)
      && (forall x, other: nat :: Caches(c', x, other) && id != Some(other) ==> Caches(c, x, other))
      && (forall x, other: nat :: Caches(c, x, other) && c.store[other].users > 0 ==> Caches(c', x, other))
      && (forall x, y: nat | x in c.list && y in c.list && x in c'.list && y in c'.list ::
            Before(c', x, y) <==> Before(c, x, y))
  {
    AddKeepsInv(c, request, h, size);
    var (c', id) := Add(c, request, h, size);
    assert c.Wf() && c'.Wf() && ListedIffLive(c) && ListedIffLive(c');
    SurvivorsKeepOrder(c, c');
    hide CacheInv, Evict, Before;
    forall x, other: nat | Caches(c, x, other) && c.store[other].users > 0 ensures Caches(c', x, other) {
      assert Evicted(c.store[other], c'.store[other]);
    }
    forall x, other: nat | Caches(c', x, other) && id != Some(other) ensures Caches(c, x, other) {
      assert Evicted(c.store[other], c'.store[other]);
    }
  }

  /** In every state of every history the list is ordered by last use and holds one element per hash. */
  lemma ListIsOrderedByUse(hash: string -> int, run: seq<Sys>, actions: seq<Action>, n: nat)
    requires IsHistory(hash, run, actions) && n < |run|
    ensures var c := run[n].cache;
      && c.Wf()
      && (forall i, j | 0 <= i < j < |c.list| ::
            && c.store[c.list[i]].lastTouch < c.store[c.list[j]].lastTouch
            && c.store[c.list[i]].hash != c.store[c.list[j]].hash
            && c.list[i] != c.list[j])
  {
    HistoryBase(hash, run, actions, n);
    ListIsDistinct(run[n].cache);
    hide IsHistory, RolesInv, WritersAgree, CountsAgree, HashesAgree;
  }

  // ----- How eviction walks -----

  /** The walk never looks back: what lies before its position stays where it is. */
  lemma {:induction false} EvictKeepsPrefix(c: Cache, i: nat, dataSize: nat)
    requires c.Wf() && i <= |c.list|
    ensures i <= |Evict(c, i, dataSize).list| && Evict(c, i, dataSize).list[..i] == c.list[..i]
    decreases |c.list| - i
  {
    if i < |c.list| {
      if c.store[c.list[i]].users <= 0 {
        var c' := Unlink(c, i);
        assert c'.list[..i] == c.list[..i];
        if c'.bytes + dataSize >= MAX_CASH_SIZE && i + 1 <= |c'.list| {
          EvictKeepsPrefix(c', i + 1, dataSize);
          assert c'.list[..i + 1][..i] == c'.list[..i];
        }
      } else {
        EvictKeepsPrefix(c, i + 1, dataSize);
        assert c.list[..i + 1][..i] == c.list[..i];
      }
    }
  }

  /** The iterator is stepped after each erase, so of two neighbours at most one is evicted, however
      much room is needed. */
  lemma {:induction false} NeighbourOfVictimStays(c: Cache, i: nat, dataSize: nat, p: nat)
    requires c.Wf() && i <= p && p + 1 < |c.list|
    ensures var list' := Evict(c, i, dataSize).list;
      c.list[p] in list' || c.list[p + 1] in list'
    decreases |c.list| - i
  {
    var list' := Evict(c, i, dataSize).list;
    if c.store[c.list[i]].users <= 0 {
      var c' := Unlink(c, i);
      if c'.bytes + dataSize < MAX_CASH_SIZE {
        if p == i { assert c'.list[i] == c.list[p + 1]; } else { assert c'.list[p - 1] == c.list[p]; }
      } else {
        EvictKeepsPrefix(c', i + 1, dataSize);
        if p <= i + 1 {
          assert list'[i] == list'[..i + 1][i] == c'.list[i] == c.list[i + 1];
        } else {
          assert c'.list[p - 1] == c.list[p] && c'.list[p] == c.list[p + 1];
          NeighbourOfVictimStays(c', i + 1, dataSize, p - 1);
        }
      }
    } else if p == i {
      EvictKeepsPrefix(c, i + 1, dataSize);
      assert list'[i] == list'[..i + 1][i] == c.list[i];
    } else {
      NeighbourOfVictimStays(c, i + 1, dataSize, p);
    }
  }

  /** What the walk from position `i` credits if it is never stopped, read off the list before it. */
  function Freed(c: Cache, i: nat): nat
    requires c.Wf()
    decreases |c.list| - i
  {
    if i >= |c.list| then 0
    else if c.store[c.list[i]].users <= 0 then c.store[c.list[i]].Held() + Freed(c, i + 2)
    else Freed(c, i + 1)
  }

  /** What the unused elements hold that such a walk steps over. */
  function SteppedOver(c: Cache, i: nat): nat
    requires c.Wf()
    decreases |c.list| - i
  {
    if i >= |c.list| then 0
    else if c.store[c.list[i]].users <= 0 then
      (if i + 1 < |c.list| && c.store[c.list[i + 1]].users <= 0 then c.store[c.list[i + 1]].Held() else 0)
      + SteppedOver(c, i + 2)
    else SteppedOver(c, i + 1)
  }

  /** What all unused elements hold. */
  function Unused(c: Cache, i: nat): nat
    requires c.Wf()
    decreases |c.list| - i
  {
    if i >= |c.list| then 0
    else (if c.store[c.list[i]].users <= 0 then c.store[c.list[i]].Held() else 0) + Unused(c, i + 1)
  }

  lemma {:induction false} UnusedSplits(c: Cache, i: nat)
    requires c.Wf()
    ensures Unused(c, i) == Freed(c, i) + SteppedOver(c, i)
    decreases |c.list| - i
  {
    if i < |c.list| {
      if c.store[c.list[i]].users <= 0 {
        UnusedSplits(c, i + 2);
      } else {
        UnusedSplits(c, i + 1);
      }
    }
  }

  lemma {:induction false} FreedOfRest(c: Cache, c': Cache, i: nat)
    requires c.Wf() && c'.Wf() && |c'.list| + 1 == |c.list|
    requires forall k | i <= k < |c'.list| ::
      && c'.list[k] == c.list[k + 1]
      && c'.store[c'.list[k]].users == c.store[c.list[k + 1]].users
      && c'.store[c'.list[k]].Held() == c.store[c.list[k + 1]].Held()
    ensures Freed(c', i) == Freed(c, i + 1)
    decreases |c.list| - i
  {
    if i < |c'.list| {
      FreedOfRest(c, c', i + 2);
      FreedOfRest(c, c', i + 1);
    }
  }

  lemma {:induction false} EvictMakesRoomIff(c: Cache, i: nat, dataSize: nat)
    requires c.Wf() && c.bytes + dataSize >= MAX_CASH_SIZE
    ensures Evict(c, i, dataSize).bytes + dataSize < MAX_CASH_SIZE <==> c.bytes - Freed(c, i) + dataSize < MAX_CASH_SIZE
    decreases |c.list| - i
  {
    if i < |c.list| {
      if c.store[c.list[i]].users <= 0 {
        var c' := Unlink(c, i);
        if c'.bytes + dataSize >= MAX_CASH_SIZE {
          EvictMakesRoomIff(c', i + 1, dataSize);
          FreedOfRest(c, c', i + 1);
        }
      } else {
        EvictMakesRoomIff(c, i + 1, dataSize);
      }
    }
  }

  lemma AddRefuses(c: Cache, request: string, h: int, size: nat)
    requires c.Wf()
    ensures var d := size + |request|;
      Add(c, request, h, size).1.None? <==> d > SIZE_EACH_CASH_ELEMENT || MakeRoom(c, d).bytes + d >= MAX_CASH_SIZE
  {
    hide Cache.Wf, MakeRoom;
  }

  /** An add is refused exactly if the element is too large for any cache, or there is no room and
      every second of a stretch of unused elements does not make any. */
  lemma AddRefusesIff(c: Cache, request: string, h: int, size: nat)
    requires c.Wf()
    ensures var d := size + |request|;
      Add(c, request, h, size).1.None? <==>
        || d > SIZE_EACH_CASH_ELEMENT
        || (c.bytes + d >= MAX_CASH_SIZE && c.bytes - Freed(c, 0) + d >= MAX_CASH_SIZE)
  {
    hide *;
    AddRefuses(c, request, h, size);
    RoomIff(c, size + |request|);
  }

  lemma RoomIff(c: Cache, d: nat)
    requires c.Wf()
    ensures MakeRoom(c, d).bytes + d >= MAX_CASH_SIZE <==>
      c.bytes + d >= MAX_CASH_SIZE && c.bytes - Freed(c, 0) + d >= MAX_CASH_SIZE
  {
    hide Cache.Wf, Evict, Freed;
    if c.bytes + d >= MAX_CASH_SIZE { EvictMakesRoomIff(c, 0, d); }
  }

  /** So room is missed, that is, an add is refused although evicting all unused elements would make
      room for it, exactly if what the walk steps over is what would have made it. */
  lemma RoomIsMissedIff(c: Cache, request: string, h: int, size: nat)
    requires c.Wf() && size + |request| <= SIZE_EACH_CASH_ELEMENT
    ensures var d := size + |request|;
      (Add(c, request, h, size).1.None? && c.bytes - Unused(c, 0) + d < MAX_CASH_SIZE) <==>
        (MAX_CASH_SIZE <= c.bytes - Freed(c, 0) + d < MAX_CASH_SIZE + SteppedOver(c, 0))
  {
    AddRefusesIff(c, request, h, size);
    UnusedSplits(c, 0);
    hide Cache.Wf, Add, Freed, SteppedOver, Unused;
  }

  /** The shortest such list: two unused elements, of which only both together make room. */
  lemma RoomMayBeMissed(c: Cache, request: string, h: int, size: nat)
    requires c.Wf() && |c.list| == 2 && c.list[0] != c.list[1]
    requires c.store[c.list[0]].users == 0 && c.store[c.list[1]].users == 0
    requires var dataSize := size + |request|;
      && dataSize <= SIZE_EACH_CASH_ELEMENT
      && c.bytes - c.store[c.list[0]].Held() + dataSize >= MAX_CASH_SIZE
      && c.bytes - c.store[c.list[0]].Held() - c.store[c.list[1]].Held() + dataSize < MAX_CASH_SIZE
    ensures Add(c, request, h, size).1.None?
    ensures Unlink(Unlink(c, 0), 0).bytes + size + |request| < MAX_CASH_SIZE
  {
    var dataSize := size + |request|;
    var c' := Unlink(c, 0);
    assert Evict(c, 0, dataSize) == Evict(c', 1, dataSize) == c';
    assert c'.list == [c.list[1]];
  }
}
