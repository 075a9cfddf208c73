/** The cache as the source writes it: objects that are updated in place
    (lab32v2/cash/CashElementImpl.cpp, CashImpl.cpp). Every method is proved against the function
    of module CacheSpec that says what it does. One call is one critical section. */
module CashObjects {
  import opened Wrappers
  import opened CacheSpec

  /** Stands for a condition variable of a waiting reader. */
  type CondVar = int

  /** `s` without the first occurrence of `x`. */
  function Erased<T(==)>(s: seq<T>, x: T): seq<T> {
    if s == [] then [] else if s[0] == x then s[1..] else [s[0]] + Erased(s[1..], x)
  }

  /** Erasing takes back exactly one registration, so nobody else's is lost. */
  lemma {:induction false} ErasedRemovesOne<T>(s: seq<T>, x: T)
    ensures multiset(Erased(s, x)) == multiset(s) - multiset{x}
  {
    if s != [] {
      assert s == [s[0]] + s[1..];
      if s[0] != x {
        ErasedRemovesOne(s[1..], x);
      }
    }
  }

  lemma {:induction false} ErasedSplits<T>(before: seq<T>, x: T, after: seq<T>)
    requires x !in before
    ensures Erased(before + [x] + after, x) == before + after
  {
    var all := before + [x] + after;
    if before != [] {
      assert all[1..] == before[1..] + [x] + after;
      ErasedSplits(before[1..], x, after);
    }
  }

  lemma {:induction false} ErasedAbsent<T>(s: seq<T>, x: T)
    requires x !in s
    ensures Erased(s, x) == s
  {
    if s != [] { ErasedAbsent(s[1..], x); }
  }

  class CashElementImpl {
    const requestHeading: string
    const hashRequestHeading: int
    var cash: string
    var countConnectedUsers: int
    var isDownloadEnd: bool
    var isServerConnected: bool
    var listSubscribers: seq<CondVar>
    // history
    ghost const id: nat
    ghost const reserved: nat
    ghost var lastTouch: nat
    ghost var refund: Option<nat>

    ghost function State(): Elem
      reads this
    {
      Elem(requestHeading, hashRequestHeading, cash, countConnectedUsers, isDownloadEnd, isServerConnected,
           reserved, lastTouch, refund)
    }

    constructor (heading: string, hash: int, ghost dataSize: nat, ghost id: nat, ghost now: nat)
      ensures State() == NewElem(heading, hash, dataSize, now)
      ensures this.id == id && listSubscribers == []
    {
      requestHeading, hashRequestHeading := heading, hash;
      cash := "";
      countConnectedUsers := 0;
      isDownloadEnd, isServerConnected := false, false;
      listSubscribers := [];
      this.id, reserved := id, dataSize;
      lastTouch, refund := now, None;
    }

    method GetLength() returns (length: nat)
      ensures length == |State().content|
    {
      length := |cash|;
    }

    method AppendStringToCash(binaryString: string)
      modifies `cash
      ensures State() == old(State()).(content := old(State()).content + binaryString)
    {
      cash := cash + binaryString;
    }

    /** Copies `sizeCopy` bytes from `offset` on. */
    method MemCopyFromCash(offset: nat, sizeCopy: nat) returns (target: string)
      requires offset + sizeCopy <= |cash|
      ensures |target| == sizeCopy && State().content[..offset] + target <= State().content
    {
      target := cash[offset..offset + sizeCopy];
      assert cash[..offset] + target == cash[..offset + sizeCopy];
    }

    method AddCountUsers()
      modifies `countConnectedUsers
      ensures State() == old(State()).(users := old(State()).users + 1)
    {
      countConnectedUsers := countConnectedUsers + 1;
    }

    method MinusCountUsers()
      modifies `countConnectedUsers
      ensures State() == old(State()).(users := old(State()).users - 1)
    {
      countConnectedUsers := countConnectedUsers - 1;
    }

    method SetDownloadEnd(value: bool)
      modifies `isDownloadEnd
      ensures State() == old(State()).(downloadEnd := value)
    {
      isDownloadEnd := value;
    }

    method SetIsServerConnect(value: bool)
      modifies `isServerConnected
      ensures State() == old(State()).(serverConnected := value)
    {
      isServerConnected := value;
    }

    /** Erases the first entry for `condVar`. */
    method DellCondVar(condVar: CondVar)
      modifies `listSubscribers
      ensures listSubscribers == Erased(old(listSubscribers), condVar)
    {
      ghost var was := listSubscribers;
      var i := 0;
      while i < |listSubscribers|
        invariant 0 <= i <= |listSubscribers|
        invariant listSubscribers == was && condVar !in was[..i]
      {
        if listSubscribers[i] == condVar {
          assert was == was[..i] + [condVar] + was[i + 1..];
          ErasedSplits(was[..i], condVar, was[i + 1..]);
          listSubscribers := listSubscribers[..i] + listSubscribers[i + 1..];
          return;
        }
        i := i + 1;
      }
      assert was[..i] == was;
      ErasedAbsent(was, condVar);
    }
  }

  ghost function States(elements: seq<CashElementImpl>): (s: seq<Elem>)
    reads elements
    ensures |s| == |elements| && forall i | 0 <= i < |elements| :: s[i] == elements[i].State()
  {
    seq(|elements|, i requires 0 <= i < |elements| reads elements => elements[i].State())
  }

  ghost function Ids(elements: seq<CashElementImpl>): (s: seq<nat>)
    ensures |s| == |elements| && forall i | 0 <= i < |elements| :: s[i] == elements[i].id
  {
    seq(|elements|, i requires 0 <= i < |elements| => elements[i].id)
  }

  class CashImpl {
    const hasher: string -> int
    var listCash: seq<CashElementImpl>
    var byteInCash: int
    // history: every element ever created, in order, and the time of the next touch
    ghost var created: seq<CashElementImpl>
    ghost var clock: nat

    ghost predicate Valid()
      reads this
    {
      && (forall i | 0 <= i < |created| :: created[i].id == i)
      && (forall i | 0 <= i < |listCash| :: listCash[i].id < |created| && created[listCash[i].id] == listCash[i])
    }

    ghost function State(): (c: Cache)
      requires Valid()
      reads this, created
      ensures c.Wf()
    {
      Cache(States(created), Ids(listCash), byteInCash, clock)
    }

    /** The source leaves `byteInCash` uninitialised; it is taken to start at zero. */
    constructor (hasher: string -> int)
      ensures Valid() && State() == EMPTY && this.hasher == hasher
    {
      this.hasher := hasher;
      listCash, byteInCash := [], 0;
      created, clock := [], 0;
    }

    /** The element is one of this cache's, listed or evicted. */
    ghost predicate Has(element: CashElementImpl)
      reads this
    {
      element.id < |created| && created[element.id] == element
    }

    lemma StateOf(element: CashElementImpl)
      requires Valid() && Has(element)
      ensures State().Wf() && element.id < |State().store| && State().store[element.id] == element.State()
    {
    }

    // What a call on one element means for the cache as a whole.

    method AppendTo(element: CashElementImpl, data: string)
      requires Valid() && Has(element)
      modifies element`cash
      ensures Valid() && State() == Append(old(State()), element.id, data)
    {
      ghost var was := State();
      element.AppendStringToCash(data);
      assert States(created) == Append(was, element.id, data).store;
    }

    method SetDownloadEndOf(element: CashElementImpl, value: bool)
      requires Valid() && Has(element)
      modifies element`isDownloadEnd
      ensures Valid() && State() == SetDownloadEnd(old(State()), element.id, value)
    {
      ghost var was := State();
      element.SetDownloadEnd(value);
      assert States(created) == SetDownloadEnd(was, element.id, value).store;
    }

    method SetServerConnectOf(element: CashElementImpl, value: bool)
      requires Valid() && Has(element)
      modifies element`isServerConnected
      ensures Valid() && State() == SetServerConnect(old(State()), element.id, value)
    {
      ghost var was := State();
      element.SetIsServerConnect(value);
      assert States(created) == SetServerConnect(was, element.id, value).store;
    }

    method CountUser(element: CashElementImpl)
      requires Valid() && Has(element)
      modifies element`countConnectedUsers
      ensures Valid() && State() == AddUsers(old(State()), element.id, 1)
    {
      ghost var was := State();
      element.AddCountUsers();
      assert States(created) == AddUsers(was, element.id, 1).store;
    }

    method DiscountUser(element: CashElementImpl)
      requires Valid() && Has(element)
      modifies element`countConnectedUsers
      ensures Valid() && State() == AddUsers(old(State()), element.id, -1)
    {
      ghost var was := State();
      element.MinusCountUsers();
      assert States(created) == AddUsers(was, element.id, -1).store;
    }

    /** Position of the first element with hash `h`. */
    method Search(h: int) returns (p: nat)
      requires Valid()
      ensures p == Scan(State(), h, 0)
    {
      p := 0;
      while p < |listCash|
        invariant p <= |listCash|
        invariant Scan(State(), h, 0) == Scan(State(), h, p)
      {
        if listCash[p].hashRequestHeading == h {
          return;
        }
        p := p + 1;
      }
    }

    method IsElementInCash(request: string) returns (found: bool)
      requires Valid()
      ensures found == Contains(State(), hasher(request))
    {
      var p := Search(hasher(request));
      found := p < |listCash|;
    }

    /** A hit splices the element to the end of the list. */
    method FindResponseInCash(heading: string) returns (element: CashElementImpl?)
      requires Valid()
      modifies `listCash, `clock, created`lastTouch
      ensures Valid()
      ensures (element != null) == Contains(old(State()), hasher(heading))
      ensures State() == Find(old(State()), hasher(heading)).0
      ensures element != null ==>
        Has(element) && Find(old(State()), hasher(heading)).1 == Some(element.id)
    {
      var p := Search(hasher(heading));
      hide Scan;
      if p == |listCash| {
        return null;
      }
      element := listCash[p];
      SpliceToEnd(p);
    }

    method SpliceToEnd(p: nat)
      requires Valid() && p < |listCash|
      modifies `listCash, `clock, created`lastTouch
      ensures Valid()
      ensures var c, id := old(State()), old(listCash[p].id);
        State() == Cache(c.store[id := c.store[id].(lastTouch := c.clock)], MoveToEnd(c.list, p), c.bytes, c.clock + 1)
    {
      ghost var was := State();
      var element := listCash[p];
      element.lastTouch := clock;
      clock := clock + 1;
      listCash := listCash[..p] + listCash[p + 1..] + [element];
      assert Ids(listCash) == MoveToEnd(was.list, p);
      assert States(created) == was.store[element.id := was.store[element.id].(lastTouch := was.clock)];
    }

    /** Unlinks the element at position `p` and credits its current size to the budget. */
    method Erase(p: nat)
      requires Valid() && p < |listCash|
      modifies `listCash, `byteInCash, created`refund
      ensures Valid() && State() == Unlink(old(State()), p)
    {
      ghost var was := State();
      var element := listCash[p];
      byteInCash := byteInCash - |element.cash|;
      byteInCash := byteInCash - |element.requestHeading|;
      element.refund := Some(element.State().Held());
      listCash := listCash[..p] + listCash[p + 1..];
      assert Ids(listCash) == Without(was.list, p);
      ghost var e := was.store[element.id];
      assert States(created) == was.store[element.id := e.(refund := Some(e.Held()))];
    }

    /** The eviction loop. After an erase the iterator already points to the next element and is
        stepped once more; where the source would step past the end, the walk stops. */
    method EvictUnused(dataSize: nat)
      requires Valid()
      modifies `listCash, `byteInCash, created`refund
      ensures Valid() && State() == Evict(old(State()), 0, dataSize)
    {
      ghost var was := State();
      var it := 0;
      while it < |listCash|
        invariant Valid()
        invariant Evict(was, 0, dataSize) == Evict(State(), it, dataSize)
        decreases |listCash| - it
      {
        if listCash[it].countConnectedUsers <= 0 {
          Erase(it);
          if byteInCash + dataSize < MAX_CASH_SIZE {
            return;
          }
        }
        it := it + 1;
      }
    }

    /** Adds an empty element, evicting unused ones if the budget needs it, or refuses. */
    method AddStringToCash(request: string, size: nat) returns (element: CashElementImpl?)
      requires Valid()
      modifies this, created`refund
      ensures Valid()
      ensures State() == Add(old(State()), request, hasher(request), size).0
      ensures (element == null) == Add(old(State()), request, hasher(request), size).1.None?
      ensures created == if element == null then old(created) else old(created) + [element]
      ensures element != null ==> fresh(element) && Has(element) && element.id == |old(created)|
    {
      hide Evict;
      var dataSize := size + |request|;
      if dataSize > SIZE_EACH_CASH_ELEMENT {
        return null;
      }
      if byteInCash + dataSize >= MAX_CASH_SIZE {
        EvictUnused(dataSize);
        if byteInCash + dataSize >= MAX_CASH_SIZE {
          return null;
        }
      }
      element := Link(request, dataSize);
    }

    /** Puts a new element at the end of the list and charges it to the budget. */
    method Link(request: string, dataSize: nat) returns (element: CashElementImpl)
      requires Valid()
      modifies this
      ensures Valid() && fresh(element)
      ensures element.id == |old(created)| && created == old(created) + [element]
      ensures var c, h := old(State()), hasher(request);
        State() == Cache(c.store + [NewElem(request, h, dataSize, c.clock)], c.list + [|c.store|],
                         c.bytes + dataSize, c.clock + 1)
    {
      ghost var was := State();
      byteInCash := byteInCash + dataSize;
      element := new CashElementImpl(request, hasher(request), dataSize, |created|, clock);
      listCash := listCash + [element];
      created := created + [element];
      clock := clock + 1;
      assert Ids(listCash) == was.list + [|was.store|];
      assert States(created) == was.store + [NewElem(request, hasher(request), dataSize, was.clock)];
    }
  }
}
