/** Which elements an add evicts (lab32v2/cash/CashImpl.cpp:52-70), read off the list before the call. */
module Eviction {
  import opened Wrappers
  import opened CacheSpec

  predicate IsUnused(c: Cache, p: nat)
    requires c.Wf() && p < |c.list|
  {
    c.store[c.list[p]].users <= 0
  }

  /** Whether a walk from position `i` takes position `p` if nothing stops it: the element is unused, and
      the one before has not just been taken. */
  predicate Takes(c: Cache, i: nat, p: nat)
    requires c.Wf() && i <= p < |c.list|
  {
    IsUnused(c, p) && (p == i || !Takes(c, i, p - 1))
  }

  /** What the walk has taken before it comes to position `q`. */
  function TakenBytes(c: Cache, i: nat, q: nat): nat
    requires c.Wf() && i <= q <= |c.list|
  {
    if q == i then 0
    else TakenBytes(c, i, q - 1) + (if Takes(c, i, q - 1) then c.store[c.list[q - 1]].Held() else 0)
  }

  /** What it has left of the first `n` positions, if it stops before position `q`. */
  function Left(c: Cache, i: nat, q: nat, n: nat): seq<nat>
    requires c.Wf() && n <= |c.list|
  {
    if n == 0 then []
    else Left(c, i, q, n - 1) + (if i <= n - 1 < q && Takes(c, i, n - 1) then [] else [c.list[n - 1]])
  }

  /** The walk stops behind position `q - 1`: it has just taken that element and there is room, which there
      was not before; or it has come to the end of the list without finding room. */
  predicate StopsAt(c: Cache, i: nat, dataSize: nat, q: nat)
    requires c.Wf() && i <= q <= |c.list|
  {
    && (forall p | i <= p < q :: c.bytes - TakenBytes(c, i, p) + dataSize >= MAX_CASH_SIZE)
    && if c.bytes - TakenBytes(c, i, q) + dataSize < MAX_CASH_SIZE then i < q && Takes(c, i, q - 1) else q == |c.list|
  }

  /** The cache once the walk has stopped there. */
  ghost predicate Walked(c: Cache, i: nat, q: nat, c': Cache)
    requires c.Wf() && i <= q <= |c.list|
  {
    && c'.list == Left(c, i, q, |c.list|)
    && c'.bytes == c.bytes - TakenBytes(c, i, q)
    && c'.clock == c.clock && |c'.store| == |c.store|
  }

  // ----- A walk that goes on after a victim -----

  /** The list behind a victim, from two positions on, is walked like a list of its own. */
  lemma {:induction false} TakesAfterVictim(c: Cache, c': Cache, i: nat, p: nat)
    requires c.Wf() && i < p < |c'.list| + 1 && i < |c.list| && c' == Unlink(c, i) && IsUnused(c, i) && i + 2 <= p
    ensures Takes(c, i, p) <==> Takes(c', i + 1, p - 1)
    decreases p
  {
    assert c'.list[p - 1] == c.list[p];
    if p == i + 2 {
      assert Takes(c, i, i) && !Takes(c, i, i + 1);
    } else {
      TakesAfterVictim(c, c', i, p - 1);
    }
  }

  lemma {:induction false} BytesAfterVictim(c: Cache, c': Cache, i: nat, q: nat)
    requires c.Wf() && i < |c.list| && c' == Unlink(c, i) && IsUnused(c, i) && i + 2 <= q <= |c.list|
    ensures TakenBytes(c, i, q) == c.store[c.list[i]].Held() + TakenBytes(c', i + 1, q - 1)
    decreases q
  {
    if q == i + 2 {
      assert Takes(c, i, i) && !Takes(c, i, i + 1);
      assert TakenBytes(c, i, i + 1) == TakenBytes(c, i, i) + c.store[c.list[i]].Held();
    } else {
      BytesAfterVictim(c, c', i, q - 1);
      TakesAfterVictim(c, c', i, q - 1);
      assert c'.list[q - 2] == c.list[q - 1];
    }
  }

  lemma {:induction false} LeftAfterVictim(c: Cache, c': Cache, i: nat, q: nat, n: nat)
    requires c.Wf() && i < |c.list| && c' == Unlink(c, i) && IsUnused(c, i) && i + 1 <= q && n <= |c.list|
    ensures if n <= i then Left(c, i, q, n) == c.list[..n] else Left(c, i, q, n) == Left(c', i + 1, q - 1, n - 1)
    decreases n
  {
    if n > 0 {
      LeftAfterVictim(c, c', i, q, n - 1);
      if n <= i {
        assert c.list[..n] == c.list[..n - 1] + [c.list[n - 1]];
      } else if n == i + 1 {
        LeftBefore(c', i + 1, q - 1, i);
        assert c'.list[..i] == c.list[..i];
      } else {
        assert c'.list[n - 2] == c.list[n - 1];
        if n - 1 == i + 1 {
          assert Takes(c, i, i) && !Takes(c, i, i + 1);
        } else {
          TakesAfterVictim(c, c', i, n - 1);
        }
      }
    }
  }

  lemma {:induction false} LeftBefore(c: Cache, i: nat, q: nat, n: nat)
    requires c.Wf() && n <= i && n <= |c.list|
    ensures Left(c, i, q, n) == c.list[..n]
  {
    if n > 0 {
      LeftBefore(c, i, q, n - 1);
      assert c.list[..n] == c.list[..n - 1] + [c.list[n - 1]];
    }
  }

  /** If the walk ends where it begins, or takes nothing, all is left. */
  lemma {:induction false} LeftIfNothing(c: Cache, i: nat, n: nat)
    requires c.Wf() && n <= |c.list|
    ensures Left(c, i, i, n) == c.list[..n]
  {
    if n > 0 {
      LeftIfNothing(c, i, n - 1);
      assert c.list[..n] == c.list[..n - 1] + [c.list[n - 1]];
    }
  }

  // ----- A walk that steps over an element in use -----

  lemma {:induction false} TakesAfterUsed(c: Cache, i: nat, p: nat)
    requires c.Wf() && i < p < |c.list| && !IsUnused(c, i)
    ensures Takes(c, i, p) <==> Takes(c, i + 1, p)
  {
    if p > i + 1 { TakesAfterUsed(c, i, p - 1); }
  }

  lemma {:induction false} BytesAfterUsed(c: Cache, i: nat, q: nat)
    requires c.Wf() && i < q <= |c.list| && !IsUnused(c, i)
    ensures TakenBytes(c, i, q) == TakenBytes(c, i + 1, q)
  {
    if q == i + 1 {
      assert TakenBytes(c, i, i) == 0;
    } else {
      BytesAfterUsed(c, i, q - 1);
      TakesAfterUsed(c, i, q - 1);
    }
  }

  lemma {:induction false} LeftAfterUsed(c: Cache, i: nat, q: nat, n: nat)
    requires c.Wf() && i < |c.list| && i < q && n <= |c.list| && !IsUnused(c, i)
    ensures Left(c, i, q, n) == Left(c, i + 1, q, n)
  {
    if n > 0 {
      LeftAfterUsed(c, i, q, n - 1);
      if i < n - 1 { TakesAfterUsed(c, i, n - 1); }
    }
  }

  // ----- The whole walk -----

  lemma {:induction false} EvictWalks(c: Cache, i: nat, dataSize: nat) returns (q: nat)
    requires c.Wf() && i <= |c.list| && c.bytes + dataSize >= MAX_CASH_SIZE
    ensures i <= q <= |c.list| && StopsAt(c, i, dataSize, q) && Walked(c, i, q, Evict(c, i, dataSize))
    decreases |c.list| - i
  {
    hide Takes;
    if i == |c.list| {
      q := i;
      LeftIfNothing(c, i, |c.list|);
    } else if !IsUnused(c, i) {
      q := EvictWalks(c, i + 1, dataSize);
      WalkAfterUsed(c, i, dataSize, q, Evict(c, i, dataSize));
    } else {
      var c' := Unlink(c, i);
      OneVictim(c, i);
      if c'.bytes + dataSize < MAX_CASH_SIZE || i + 1 == |c.list| {
        q := i + 1;
      } else {
        var rest := EvictWalks(c', i + 1, dataSize);
        q := rest + 1;
        WalkAfterVictim(c, i, dataSize, rest, Evict(c, i, dataSize));
      }
    }
  }

  lemma WalkAfterUsed(c: Cache, i: nat, dataSize: nat, q: nat, end: Cache)
    requires c.Wf() && i < q <= |c.list| && !IsUnused(c, i) && StopsAt(c, i + 1, dataSize, q)
    requires c.bytes + dataSize >= MAX_CASH_SIZE && Walked(c, i + 1, q, end)
    ensures StopsAt(c, i, dataSize, q) && Walked(c, i, q, end)
  {
    hide Takes, TakenBytes;
    forall p | i < p <= q ensures TakenBytes(c, i, p) == TakenBytes(c, i + 1, p) {
      BytesAfterUsed(c, i, p);
    }
    NothingTaken(c, i);
    if i + 1 < q { TakesAfterUsed(c, i, q - 1); }
    NothingTaken(c, i + 1);
    LeftAfterUsed(c, i, q, |c.list|);
  }

  lemma NothingTaken(c: Cache, i: nat)
    requires c.Wf() && i <= |c.list|
    ensures TakenBytes(c, i, i) == 0
  {
  }

  lemma OneVictim(c: Cache, i: nat)
    requires c.Wf() && i < |c.list| && IsUnused(c, i)
    ensures Takes(c, i, i) && TakenBytes(c, i, i) == 0
    ensures TakenBytes(c, i, i + 1) == c.store[c.list[i]].Held()
    ensures Left(c, i, i + 1, |c.list|) == Unlink(c, i).list
  {
    assert Takes(c, i, i);
    NothingTaken(c, i);
    LeftAfterVictim(c, Unlink(c, i), i, i + 1, |c.list|);
    LeftIsAll(Unlink(c, i), i + 1, i, |c.list| - 1);
  }

  lemma {:induction false} LeftIsAll(c: Cache, i: nat, q: nat, n: nat)
    requires c.Wf() && n <= |c.list| && q <= i
    ensures Left(c, i, q, n) == c.list[..n]
  {
    if n > 0 {
      LeftIsAll(c, i, q, n - 1);
      assert c.list[..n] == c.list[..n - 1] + [c.list[n - 1]];
    }
  }

  lemma WalkAfterVictim(c: Cache, i: nat, dataSize: nat, rest: nat, end: Cache)
    requires c.Wf() && i + 1 < |c.list| && IsUnused(c, i) && c.bytes + dataSize >= MAX_CASH_SIZE
    requires var c' := Unlink(c, i);
      c'.bytes + dataSize >= MAX_CASH_SIZE && i + 1 <= rest <= |c'.list| && StopsAt(c', i + 1, dataSize, rest)
      && Walked(c', i + 1, rest, end)
    ensures StopsAt(c, i, dataSize, rest + 1) && Walked(c, i, rest + 1, end)
  {
    hide Takes, TakenBytes;
    var c' := Unlink(c, i);
    OneVictim(c, i);
    NothingTaken(c', i + 1);
    forall p | i + 2 <= p <= rest + 1
      ensures TakenBytes(c, i, p) == c.store[c.list[i]].Held() + TakenBytes(c', i + 1, p - 1)
    {
      BytesAfterVictim(c, c', i, p);
    }
    if i + 1 < rest { TakesAfterVictim(c, c', i, rest); }
    LeftAfterVictim(c, c', i, rest + 1, |c.list|);
  }

  /** There is one place where a walk can stop. */
  lemma StopIsUnique(c: Cache, i: nat, dataSize: nat, q: nat, r: nat)
    requires c.Wf() && i <= q <= |c.list| && i <= r <= |c.list|
    requires StopsAt(c, i, dataSize, q) && StopsAt(c, i, dataSize, r)
    ensures q == r
  {
  }

  // ----- What an add evicts -----

  /** An add that fits evicts nothing. */
  lemma AddThatFitsEvictsNothing(c: Cache, request: string, h: int, size: nat)
    requires c.Wf() && size + |request| <= SIZE_EACH_CASH_ELEMENT && c.bytes + size + |request| < MAX_CASH_SIZE
    ensures var (c', id) := Add(c, request, h, size);
      id == Some(|c.store|) && c'.list == c.list + [|c.store|] && c'.store[..|c.store|] == c.store
  {
  }

  /** Any other evicts the shortest part of the walk that makes room: of the list before the call, the
      elements that the walk takes before the one position `q` at which it may stop. With the last of them
      put back there is still no room; without room at the end the add is refused. */
  lemma AddEvictsNoMoreThanNeeded(c: Cache, request: string, h: int, size: nat) returns (q: nat)
    requires c.Wf() && size + |request| <= SIZE_EACH_CASH_ELEMENT && c.bytes + size + |request| >= MAX_CASH_SIZE
    ensures q <= |c.list| && StopsAt(c, 0, size + |request|, q)
    ensures var (c', id) := Add(c, request, h, size);
      var kept, room := Left(c, 0, q, |c.list|), c.bytes - TakenBytes(c, 0, q) + size + |request| < MAX_CASH_SIZE;
      && (id.Some? <==> room)
      && c'.list == (if room then kept + [|c.store|] else kept)
      && (room ==>
            && 0 < q && Takes(c, 0, q - 1)
            && c.bytes - TakenBytes(c, 0, q) + c.store[c.list[q - 1]].Held() + size + |request| >= MAX_CASH_SIZE)
      && (!room ==> q == |c.list|)
  {
    q := EvictWalks(c, 0, size + |request|);
    hide Evict, Left, Takes, Cache.Wf;
    LastVictim(c, q);
  }

  lemma LastVictim(c: Cache, q: nat)
    requires c.Wf() && q <= |c.list|
    ensures 0 < q && Takes(c, 0, q - 1) ==>
      TakenBytes(c, 0, q) == TakenBytes(c, 0, q - 1) + c.store[c.list[q - 1]].Held()
  {
  }
}
