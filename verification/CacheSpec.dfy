/** What the response cache does, on values (lab32v2/cash/CashImpl.cpp, CashElementImpl.cpp).
    The classes in module CashObjects are proved against these functions.

    An element is named by its creation number, an index into `store`. The list holds the
    numbers of the elements that are still cached. Evicted elements stay in `store`, because
    the source unlinks them without freeing them and their writer may still append. */
module CacheSpec {
  import opened Wrappers

  const SIZE_EACH_CASH_ELEMENT := 9223372036854775000
  const MAX_CASH_SIZE := 1024 * 1024 * 1024

  /** A cached response. The last three fields are history: the bytes charged to the budget
      when the element was added, the time of its last add or hit, and the bytes credited
      back when it was evicted. */
  datatype Elem = Elem(
    heading: string,
    hash: int,
    content: string,
    users: int,
    downloadEnd: bool,
    serverConnected: bool,
    reserved: nat,
    lastTouch: nat,
    refund: Option<nat>)
  {
    /** The bytes the element really occupies. */
    function Held(): nat { |heading| + |content| }

    predicate WithinReservation() { Held() <= reserved }
  }

  datatype Cache = Cache(store: seq<Elem>, list: seq<nat>, bytes: int, clock: nat) {
    predicate Wf() { forall i | 0 <= i < |list| :: list[i] < |store| }
  }

  const EMPTY := Cache([], [], 0, 0)

  // ----- The operations -----

  /** The first list position at or after `i` whose element has hash `h`; `|list|` if none. */
  function Scan(c: Cache, h: int, i: nat): (p: nat)
    requires c.Wf() && i <= |c.list|
    ensures i <= p <= |c.list|
    ensures p < |c.list| ==> c.store[c.list[p]].hash == h
    ensures forall k | i <= k < p :: c.store[c.list[k]].hash != h
    decreases |c.list| - i
  {
    if i == |c.list| then i
    else if c.store[c.list[i]].hash == h then i
    else Scan(c, h, i + 1)
  }

  predicate Contains(c: Cache, h: int)
    requires c.Wf()
  {
    Scan(c, h, 0) < |c.list|
  }

  function Without(list: seq<nat>, p: nat): seq<nat>
    requires p < |list|
  {
    list[..p] + list[p + 1..]
  }

  function MoveToEnd(list: seq<nat>, p: nat): seq<nat>
    requires p < |list|
  {
    Without(list, p) + [list[p]]
  }

  /** A hit: the element moves to the end of the list. */
  function Find(c: Cache, h: int): (r: (Cache, Option<nat>))
    requires c.Wf()
    ensures r.0.Wf() && |r.0.store| == |c.store|
    ensures r.1.Some? <==> Contains(c, h)
    ensures r.1.Some? ==> r.1.value < |c.store| && c.store[r.1.value].hash == h
  {
    var p := Scan(c, h, 0);
    if p == |c.list| then (c, None)
    else
      var id := c.list[p];
      (Cache(c.store[id := c.store[id].(lastTouch := c.clock)], MoveToEnd(c.list, p), c.bytes, c.clock + 1),
       Some(id))
  }

  /** Unlinks the element at list position `p` and credits its current size to the budget. */
  function Unlink(c: Cache, p: nat): (r: Cache)
    requires c.Wf() && p < |c.list|
    ensures r.Wf() && |r.store| == |c.store| && |r.list| == |c.list| - 1
  {
    var id := c.list[p];
    var e := c.store[id];
    Cache(c.store[id := e.(refund := Some(e.Held()))], Without(c.list, p), c.bytes - e.Held(), c.clock)
  }

  /** The eviction loop from list position `i`. The source steps its iterator once more after
      an erase, so the element that follows a victim is never looked at. */
  function Evict(c: Cache, i: nat, dataSize: nat): (r: Cache)
    requires c.Wf()
    ensures r.Wf() && |r.store| == |c.store|
    decreases |c.list| - i
  {
    if i >= |c.list| then c
    else if c.store[c.list[i]].users <= 0 then
      var c' := Unlink(c, i);
      if c'.bytes + dataSize < MAX_CASH_SIZE then c' else Evict(c', i + 1, dataSize)
    else Evict(c, i + 1, dataSize)
  }

  /** The cache just before a new element is linked: room has been made if it was needed. */
  function MakeRoom(c: Cache, dataSize: nat): (r: Cache)
    requires c.Wf()
    ensures r.Wf() && |r.store| == |c.store|
  {
    if c.bytes + dataSize >= MAX_CASH_SIZE then Evict(c, 0, dataSize) else c
  }

  function NewElem(request: string, h: int, dataSize: nat, now: nat): Elem {
    Elem(request, h, "", 0, false, false, dataSize, now, None)
  }

  /** Adds an empty element for `request`, or refuses. `size` counts the response only. */
  function Add(c: Cache, request: string, h: int, size: nat): (r: (Cache, Option<nat>))
    requires c.Wf()
    ensures r.0.Wf()
    ensures r.1.Some? ==> r.1.value == |c.store| && |r.0.store| == |c.store| + 1
    ensures r.1.None? ==> |r.0.store| == |c.store|
  {
    var dataSize := size + |request|;
    if dataSize > SIZE_EACH_CASH_ELEMENT then (c, None)
    else
      var c' := MakeRoom(c, dataSize);
      if c'.bytes + dataSize >= MAX_CASH_SIZE then (c', None)
      else
        var id := |c'.store|;
        (Cache(c'.store + [NewElem(request, h, dataSize, c'.clock)], c'.list + [id],
               c'.bytes + dataSize, c'.clock + 1),
         Some(id))
  }

  function AddUsers(c: Cache, id: nat, delta: int): (r: Cache)
    requires c.Wf() && id < |c.store|
    ensures r.Wf() && |r.store| == |c.store|
  {
    c.(store := c.store[id := c.store[id].(users := c.store[id].users + delta)])
  }

  function Append(c: Cache, id: nat, data: string): (r: Cache)
    requires c.Wf() && id < |c.store|
    ensures r.Wf() && |r.store| == |c.store|
  {
    c.(store := c.store[id := c.store[id].(content := c.store[id].content + data)])
  }

  function SetDownloadEnd(c: Cache, id: nat, value: bool): (r: Cache)
    requires c.Wf() && id < |c.store|
    ensures r.Wf() && |r.store| == |c.store|
  {
    c.(store := c.store[id := c.store[id].(downloadEnd := value)])
  }

  function SetServerConnect(c: Cache, id: nat, value: bool): (r: Cache)
    requires c.Wf() && id < |c.store|
    ensures r.Wf() && |r.store| == |c.store|
  {
    c.(store := c.store[id := c.store[id].(serverConnected := value)])
  }

  // ----- The invariant of the cache -----

  /** What an element still holds of the budget: its whole reservation while it is cached, and
      what was never credited back once it has been evicted. */
  function Outstanding(e: Elem): int {
    if e.refund.None? then e.reserved else e.reserved - e.refund.value
  }

  function TotalOutstanding(store: seq<Elem>): int {
    if store == [] then 0
    else TotalOutstanding(store[..|store| - 1]) + Outstanding(store[|store| - 1])
  }

  /** The list is ordered by last touch, oldest first (so no element is listed twice). */
  ghost predicate OrderedByTouch(c: Cache)
    requires c.Wf()
  {
    && (forall i, j | 0 <= i < j < |c.list| :: c.store[c.list[i]].lastTouch < c.store[c.list[j]].lastTouch)
    && (forall i | 0 <= i < |c.list| :: c.store[c.list[i]].lastTouch < c.clock)
  }

  ghost predicate OnePerHash(c: Cache)
    requires c.Wf()
  {
    forall i, j | 0 <= i < j < |c.list| :: c.store[c.list[i]].hash != c.store[c.list[j]].hash
  }

  /** Exactly the listed elements have not been evicted. */
  ghost predicate ListedIffLive(c: Cache)
    requires c.Wf()
  {
    forall id | 0 <= id < |c.store| :: id in c.list <==> c.store[id].refund.None?
  }

  /** An evicted element was credited with no more than it occupies (it may have grown since). */
  ghost predicate RefundsBounded(store: seq<Elem>) {
    forall id | 0 <= id < |store| && store[id].refund.Some? :: store[id].refund.value <= store[id].Held()
  }

  ghost predicate CacheInv(c: Cache) {
    && c.Wf()
    && RefundsBounded(c.store)
    && OrderedByTouch(c)
    && OnePerHash(c)
    && ListedIffLive(c)
    && c.bytes == TotalOutstanding(c.store)
    && c.bytes < MAX_CASH_SIZE
  }

  // ----- Sums over the store -----

  lemma {:induction false} TotalOfUpdate(store: seq<Elem>, id: nat, e: Elem)
    requires id < |store|
    ensures TotalOutstanding(store[id := e]) == TotalOutstanding(store) - Outstanding(store[id]) + Outstanding(e)
  {
    var n := |store| - 1;
    var store' := store[id := e];
    if id == n {
      assert store'[..n] == store[..n];
    } else {
      assert store'[..n] == store[..n][id := e];
      TotalOfUpdate(store[..n], id, e);
    }
  }

  lemma TotalOfAppend(store: seq<Elem>, e: Elem)
    ensures TotalOutstanding(store + [e]) == TotalOutstanding(store) + Outstanding(e)
  {
    assert (store + [e])[..|store|] == store;
  }

  // ----- Each operation keeps the invariant -----

  /** Operations on one element leave everything the list and the budget depend on alone. */
  lemma UpdateKeepsOrder(c: Cache, id: nat, e: Elem)
    requires c.Wf() && OrderedByTouch(c) && OnePerHash(c) && id < |c.store|
    requires e.hash == c.store[id].hash && e.lastTouch == c.store[id].lastTouch
    ensures var c' := c.(store := c.store[id := e]); c'.Wf() && OrderedByTouch(c') && OnePerHash(c')
  {
  }

  lemma UpdateKeepsLive(c: Cache, id: nat, e: Elem)
    requires c.Wf() && ListedIffLive(c) && RefundsBounded(c.store) && id < |c.store|
    requires e.refund == c.store[id].refund && e.Held() >= c.store[id].Held()
    ensures var c' := c.(store := c.store[id := e]); c'.Wf() && ListedIffLive(c') && RefundsBounded(c'.store)
  {
    hide Elem.Held;
  }

  lemma UpdateKeepsInv(c: Cache, id: nat, e: Elem)
    requires CacheInv(c) && id < |c.store|
    requires var o := c.store[id];
      && e.hash == o.hash && e.lastTouch == o.lastTouch && e.reserved == o.reserved && e.refund == o.refund
      && e.Held() >= o.Held()
    ensures CacheInv(c.(store := c.store[id := e]))
  {
    hide Cache.Wf, OrderedByTouch, OnePerHash, ListedIffLive, RefundsBounded;
    UpdateKeepsOrder(c, id, e);
    UpdateKeepsLive(c, id, e);
    TotalOfUpdate(c.store, id, e);
  }

  lemma ListIsDistinct(c: Cache)
    requires c.Wf() && OrderedByTouch(c)
    ensures forall i, j | 0 <= i < j < |c.list| :: c.list[i] != c.list[j]
  {
    forall i, j | 0 <= i < j < |c.list| ensures c.list[i] != c.list[j] {
      assert c.store[c.list[i]].lastTouch < c.store[c.list[j]].lastTouch;
    }
  }

  /** Where position `k` of the shortened list was before position `p` was dropped. */
  function Source(p: nat, k: nat): nat { if k < p then k else k + 1 }

  lemma WithoutFacts(list: seq<nat>, p: nat)
    requires p < |list|
    requires forall i, j | 0 <= i < j < |list| :: list[i] != list[j]
    ensures forall k | 0 <= k < |Without(list, p)| :: Without(list, p)[k] == list[Source(p, k)]
    ensures forall x :: x in Without(list, p) <==> x in list && x != list[p]
  {
    var rest := Without(list, p);
    forall x | x in list && x != list[p] ensures x in rest {
      var k :| 0 <= k < |list| && list[k] == x;
      assert rest[if k < p then k else k - 1] == x;
    }
    forall k | 0 <= k < |rest| ensures rest[k] in list && rest[k] != list[p] {
      assert rest[k] == list[Source(p, k)];
    }
  }

  /** Dropping a listed element keeps order and uniqueness of the others. */
  lemma WithoutIsOrdered(c: Cache, p: nat, store': seq<Elem>)
    requires c.Wf() && OrderedByTouch(c) && OnePerHash(c) && p < |c.list|
    requires |store'| == |c.store|
    requires forall id | 0 <= id < |c.store| && id != c.list[p] ::
      store'[id].lastTouch == c.store[id].lastTouch && store'[id].hash == c.store[id].hash
    ensures var c' := Cache(store', Without(c.list, p), c.bytes, c.clock);
      c'.Wf() && OrderedByTouch(c') && OnePerHash(c')
  {
    ListIsDistinct(c);
    WithoutFacts(c.list, p);
    var list' := Without(c.list, p);
    forall i, j | 0 <= i < j < |list'|
      ensures store'[list'[i]].lastTouch < store'[list'[j]].lastTouch
      ensures store'[list'[i]].hash != store'[list'[j]].hash
    {
      assert list'[i] == c.list[Source(p, i)] && list'[j] == c.list[Source(p, j)];
      assert list'[i] in list' && list'[j] in list';
    }
    forall i | 0 <= i < |list'| ensures store'[list'[i]].lastTouch < c.clock {
      assert list'[i] == c.list[Source(p, i)];
      assert list'[i] in list';
    }
  }

  /** Listing an element touched just now, with a hash no listed element has, keeps order. */
  lemma PushIsOrdered(c: Cache, id: nat)
    requires c.Wf() && OrderedByTouch(c) && OnePerHash(c)
    requires id < |c.store| && c.store[id].lastTouch == c.clock
    requires forall k | 0 <= k < |c.list| :: c.store[c.list[k]].hash != c.store[id].hash
    ensures var c' := Cache(c.store, c.list + [id], c.bytes, c.clock + 1);
      c'.Wf() && OrderedByTouch(c') && OnePerHash(c')
  {
  }

  /** Moving an element to the end, touched just now, keeps order and uniqueness. */
  lemma TouchIsOrdered(c: Cache, p: nat)
    requires c.Wf() && OrderedByTouch(c) && OnePerHash(c) && p < |c.list|
    ensures var id := c.list[p];
      var c' := Cache(c.store[id := c.store[id].(lastTouch := c.clock)], MoveToEnd(c.list, p), c.bytes, c.clock + 1);
      && c'.Wf() && OrderedByTouch(c') && OnePerHash(c')
      && (forall x :: x in c'.list <==> x in c.list)
  {
    var id := c.list[p];
    var store', rest := c.store[id := c.store[id].(lastTouch := c.clock)], Without(c.list, p);
    ListIsDistinct(c);
    WithoutFacts(c.list, p);
    WithoutIsOrdered(c, p, store');
    HashesDifferFrom(c, p);
    hide OrderedByTouch, OnePerHash;
    forall k | 0 <= k < |rest| ensures store'[rest[k]].hash != store'[id].hash {
      assert rest[k] in rest;
    }
    PushIsOrdered(Cache(store', rest, c.bytes, c.clock), id);
  }

  lemma FindKeepsInv(c: Cache, h: int)
    requires CacheInv(c)
    ensures CacheInv(Find(c, h).0)
    ensures forall x :: x in Find(c, h).0.list <==> x in c.list
  {
    hide OrderedByTouch, OnePerHash, Cache.Wf;
    var p := Scan(c, h, 0);
    if p < |c.list| {
      var id, c' := c.list[p], Find(c, h).0;
      ListedAreStored(c, p);
      TouchIsOrdered(c, p);
      TotalOfUpdate(c.store, id, c'.store[id]);
    }
  }

  lemma ListedAreStored(c: Cache, p: nat)
    requires c.Wf() && p < |c.list|
    ensures c.list[p] < |c.store|
  {
  }

  lemma HashesDifferFrom(c: Cache, p: nat)
    requires c.Wf() && OnePerHash(c) && p < |c.list|
    ensures forall x | x in c.list && x != c.list[p] :: c.store[x].hash != c.store[c.list[p]].hash
  {
    forall x | x in c.list && x != c.list[p] ensures c.store[x].hash != c.store[c.list[p]].hash {
      var k :| 0 <= k < |c.list| && c.list[k] == x;
      assert k < p || p < k;
    }
  }

  lemma UnlinkKeepsInv(c: Cache, p: nat)
    requires CacheInv(c) && p < |c.list|
    ensures CacheInv(Unlink(c, p))
    ensures forall x :: x in Unlink(c, p).list <==> x in c.list && x != c.list[p]
  {
    var id, c' := c.list[p], Unlink(c, p);
    ListIsDistinct(c);
    WithoutFacts(c.list, p);
    WithoutIsOrdered(c, p, c'.store);
    assert c'.list == Without(c.list, p);
    assert id in c.list;
    TotalOfUpdate(c.store, id, c'.store[id]);
  }

  /** How eviction may change an element: it can only be credited back. */
  ghost predicate Evicted(e: Elem, e': Elem) {
    e' == e || (e.refund.None? && e.users <= 0 && e' == e.(refund := Some(e.Held())))
  }

  /** Eviction keeps the invariant, unlinks only elements nobody uses, and touches nothing
      else: survivors keep their data and (being ordered by touch) their order. */
  lemma {:induction false} EvictKeepsInv(c: Cache, i: nat, dataSize: nat)
    requires CacheInv(c)
    ensures CacheInv(Evict(c, i, dataSize))
    ensures forall id | 0 <= id < |c.store| :: Evicted(c.store[id], Evict(c, i, dataSize).store[id])
    ensures Evict(c, i, dataSize).clock == c.clock
    decreases |c.list| - i
  {
    if i < |c.list| {
      assert c.store[c.list[i]].refund.None? by { assert c.list[i] in c.list; }
      assert c.Wf();
      hide CacheInv;
      if c.store[c.list[i]].users <= 0 {
        var c' := Unlink(c, i);
        UnlinkKeepsInv(c, i);
        if c'.bytes + dataSize >= MAX_CASH_SIZE {
          EvictKeepsInv(c', i + 1, dataSize);
        }
      } else {
        EvictKeepsInv(c, i + 1, dataSize);
      }
    }
  }

  /** Linking a new element with an unused hash at the end keeps the invariant. */
  lemma LinkKeepsInv(c: Cache, e: Elem)
    requires CacheInv(c)
    requires forall id | 0 <= id < |c.store| && id in c.list :: c.store[id].hash != e.hash
    requires e.refund.None? && e.lastTouch == c.clock
    requires c.bytes + e.reserved < MAX_CASH_SIZE
    ensures CacheInv(Cache(c.store + [e], c.list + [|c.store|], c.bytes + e.reserved, c.clock + 1))
  {
    var r := Cache(c.store + [e], c.list + [|c.store|], c.bytes + e.reserved, c.clock + 1);
    TotalOfAppend(c.store, e);
    forall i, j | 0 <= i < j < |r.list|
      ensures r.store[r.list[i]].lastTouch < r.store[r.list[j]].lastTouch
      ensures r.store[r.list[i]].hash != r.store[r.list[j]].hash
    {
      assert r.list[i] == c.list[i];
      assert c.list[i] in c.list;
    }
    forall id | 0 <= id < |r.store| ensures id in r.list <==> r.store[id].refund.None? {
      if id in c.list { assert id < |c.store|; }
    }
  }

  lemma ScanMiss(c: Cache, h: int)
    requires c.Wf() && !Contains(c, h)
    ensures forall id | id in c.list :: c.store[id].hash != h
  {
    forall id | id in c.list ensures c.store[id].hash != h {
      var k :| 0 <= k < |c.list| && c.list[k] == id;
    }
  }

  lemma MakeRoomKeepsInv(c: Cache, dataSize: nat, h: int)
    requires CacheInv(c) && !Contains(c, h)
    ensures var c' := MakeRoom(c, dataSize);
      && CacheInv(c') && c'.clock == c.clock
      && OnlyEvicted(c.store, c'.store)
      && (forall id | 0 <= id < |c'.store| && id in c'.list :: c'.store[id].hash != h)
  {
    EvictKeepsInv(c, 0, dataSize);
    ScanMiss(c, h);
    var c' := MakeRoom(c, dataSize);
    forall id | 0 <= id < |c'.store| && id in c'.list ensures c'.store[id].hash != h {
      assert Evicted(c.store[id], c'.store[id]);
      assert c'.store[id].refund.None?;
      assert id in c.list;
    }
  }

  /** The old elements after an add: at most evicted. */
  ghost predicate OnlyEvicted(store: seq<Elem>, store': seq<Elem>) {
    |store| <= |store'| && forall id | 0 <= id < |store| :: Evicted(store[id], store'[id])
  }

  lemma LinkOnlyEvicts(store: seq<Elem>, store': seq<Elem>, e: Elem)
    requires OnlyEvicted(store, store') && |store'| == |store|
    ensures OnlyEvicted(store, store' + [e]) && (store' + [e])[|store|] == e
  {
  }

  lemma AddKeepsInv(c: Cache, request: string, h: int, size: nat)
    requires CacheInv(c) && !Contains(c, h)
    ensures CacheInv(Add(c, request, h, size).0)
    ensures OnlyEvicted(c.store, Add(c, request, h, size).0.store)
    ensures Add(c, request, h, size).1.Some? ==>
      Add(c, request, h, size).0.store[|c.store|] == NewElem(request, h, size + |request|, c.clock)
  {
    assert c.Wf();
    assert OnlyEvicted(c.store, c.store);
    var dataSize := size + |request|;
    MakeRoomKeepsInv(c, dataSize, h);
    hide CacheInv, Cache.Wf, Evict, OnlyEvicted, Contains, MakeRoom;
    if dataSize <= SIZE_EACH_CASH_ELEMENT {
      var c' := MakeRoom(c, dataSize);
      if c'.bytes + dataSize < MAX_CASH_SIZE {
        var e := NewElem(request, h, dataSize, c'.clock);
        LinkKeepsInv(c', e);
        LinkOnlyEvicts(c.store, c'.store, e);
      }
    }
  }
}
