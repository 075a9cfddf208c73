/** What the sockets took of the bytes that the buffers counted as sent. The handler does not look at
    the result of a drain (lab32v2/server/HandlerOneClientImpl.cpp:152-154), and a reader only notices
    a negative one (lines 335-338), so a write that is cut short loses its bytes for good. */
module Deliveries {
  import opened Wrappers
  import opened CacheSpec
  import opened BufferSpec
  import opened ProxySystem

  /** `sub` is `s` with some bytes left out. */
  predicate Subsequence(sub: string, s: string) {
    sub == "" ||
    (s != "" &&
     (Subsequence(sub, s[..|s| - 1])
      || (sub[|sub| - 1] == s[|s| - 1] && Subsequence(sub[..|sub| - 1], s[..|s| - 1]))))
  }

  lemma {:induction false} SubsequenceDrops(sub: string, s: string, tail: string)
    requires Subsequence(sub, s)
    ensures Subsequence(sub, s + tail)
  {
    if tail == "" {
      assert s + tail == s;
    } else {
      SubsequenceDrops(sub, s, tail[..|tail| - 1]);
      assert (s + tail)[..|s + tail| - 1] == s + tail[..|tail| - 1];
    }
  }

  lemma {:induction false} SubsequenceKeeps(sub: string, s: string, tail: string)
    requires Subsequence(sub, s)
    ensures Subsequence(sub + tail, s + tail)
  {
    if tail == "" {
      assert s + tail == s && sub + tail == sub;
    } else {
      var n := |tail| - 1;
      SubsequenceKeeps(sub, s, tail[..n]);
      assert (s + tail)[..|s + tail| - 1] == s + tail[..n];
      assert (sub + tail)[..|sub + tail| - 1] == sub + tail[..n];
    }
  }

  lemma SubsequenceOfPrefix(sub: string, prefix: string, s: string)
    requires Subsequence(sub, prefix) && prefix <= s
    ensures Subsequence(sub, s)
  {
    SubsequenceDrops(sub, prefix, s[|prefix|..]);
    assert prefix + s[|prefix|..] == s;
  }

  /** A wire against the bytes that were counted: nothing is added or reordered, each cut loses at
      least a byte, and without cuts nothing is lost. */
  ghost predicate Delivered(counted: string, w: Wire) {
    && Subsequence(w.sent, counted)
    && |w.sent| + w.cuts <= |counted|
    && (w.cuts == 0 ==> w.sent == counted)
  }

  lemma WriteDelivers(counted: string, w: Wire, chunk: string, taken: nat)
    requires Delivered(counted, w)
    ensures Delivered(counted + chunk, Written(w, chunk, taken))
  {
    var n := Min(taken, |chunk|);
    assert chunk == chunk[..n] + chunk[n..];
    assert counted + chunk == (counted + chunk[..n]) + chunk[n..];
    SubsequenceKeeps(w.sent, counted, chunk[..n]);
    SubsequenceDrops(w.sent + chunk[..n], counted + chunk[..n], chunk[n..]);
    hide Subsequence;
  }

  /** Bytes delivered and bytes waiting are all there is exactly if no write was cut. */
  lemma WholeIffUncut(counted: string, w: Wire, waiting: string)
    requires Delivered(counted, w)
    ensures w.sent + waiting == counted + waiting <==> w.cuts == 0
    ensures w.sent == counted <==> w.cuts == 0
  {
    hide Subsequence;
    if w.sent + waiting == counted + waiting {
      assert |w.sent| + |waiting| == |counted| + |waiting|;
    }
  }

  ghost predicate Wires(k: Conn) {
    Delivered(k.reqOut, k.reqWire) && Delivered(k.respOut, k.respWire) && Delivered(k.cashOut, k.cashWire)
  }

  /** An action that writes nothing. */
  predicate SameWires(k: Conn, k': Conn) {
    && k'.reqOut == k.reqOut && k'.respOut == k.respOut && k'.cashOut == k.cashOut
    && k'.reqWire == k.reqWire && k'.respWire == k.respWire && k'.cashWire == k.cashWire
  }

  lemma TeardownWritesNothing(k: Conn, c: Cache)
    requires Wf(k.b, c)
    ensures SameWires(k, DeleteUser(k, c).0) && SameWires(k, DeleteServer(k, c).0)
  {
    hide Wf, LeftByOrigin, LeftByReader;
  }

  lemma UserReadWritesNothing(hash: string -> int, k: Conn, c: Cache, chunk: string, connected: bool)
    requires Wf(k.b, c)
    ensures SameWires(k, UserRead(hash, k, c, chunk, connected).0)
  {
    hide Wf, ReadFromSocket, DeleteUser;
    var o := ReadFromSocket(hash, k.b, c, chunk);
    Cleared(o.b, o.c);
    TeardownWritesNothing(k.(b := o.b.(isReadyConnectHttpServer := false), reqIn := k.reqIn + chunk), o.c);
  }

  lemma ServerReadWritesNothing(hash: string -> int, k: Conn, c: Cache, chunk: string, connected: bool)
    requires Wf(k.b, c)
    ensures SameWires(k, ServerRead(hash, k, c, chunk, connected).0)
  {
    hide Cache.Wf, ReadFromSocket, LeftByOrigin;
  }

  lemma WiresKept(hash: string -> int, k: Conn, c: Cache, a: Action)
    requires Wf(k.b, c) && !a.Accept? && PossibleAt(k, c, a) && Wires(k)
    ensures Wires(ApplyAt(hash, k, c, a).0)
  {
    hide Wf, Delivered, UserRead, ServerRead, DeleteUser, DeleteServer, SendBuf, ProofSend, RefreshReady, Written,
      NextPc;
    match a {
      case UserChunk(_, chunk, connected) => UserReadWritesNothing(hash, k, c, chunk, connected);
      case ServerChunk(_, chunk, connected) => ServerReadWritesNothing(hash, k, c, chunk, connected);
      case DrainServer(_, taken) => WriteDelivers(k.reqOut, k.reqWire, SendBuf(k.b, c, ""), taken);
      case DrainUser(_, taken) => WriteDelivers(k.respOut, k.respWire, SendBuf(k.b, c, ""), taken);
      case Look(_) =>
      case ReadCash(_, ok, taken) => WriteDelivers(k.cashOut, k.cashWire, SendBuf(k.b, c, ""), taken);
      case _ => TeardownWritesNothing(k, c);
    }
  }

  lemma AcceptedIsSilent()
    ensures Wires(ACCEPTED)
  {
  }

  /** Whatever the peers send and when, in every state of every history. */
  lemma {:induction false} HistoryWires(hash: string -> int, run: seq<Sys>, actions: seq<Action>, n: nat, i: nat)
    requires IsHistory(hash, run, actions) && n < |run| && i < |run[n].conns|
    ensures Wires(run[n].conns[i])
  {
    hide Wires, Wf, PossibleAt, ApplyAt;
    if n > 0 {
      var s, a := run[n - 1], actions[n - 1];
      assert run[n - 1 + 1] == Apply(hash, s, a);
      if i < |s.conns| {
        HistoryWires(hash, run, actions, n - 1, i);
        if !a.Accept? && a.i == i { WiresKept(hash, s.conns[a.i], s.cache, a); }
      } else {
        AcceptedIsSilent();
      }
    }
  }

  // ----- Cuts are failed writes -----

  /** Whether an action is a drain of connection `i` towards the user, or towards the origin, that the
      socket cut short. */
  predicate CutsDrain(s: Sys, a: Action, i: nat, toUser: bool) {
    && (if toUser then a.DrainUser? else a.DrainServer?) && a.i == i && i < |s.conns| && Wf(s.conns[i].b, s.cache)
    && a.taken < |SendBuf(s.conns[i].b, s.cache, "")|
  }

  /** How many of the first `n` actions of a history did that. */
  function CutDrains(run: seq<Sys>, actions: seq<Action>, n: nat, i: nat, toUser: bool): nat
    requires n <= |actions| && n <= |run|
  {
    if n == 0 then 0
    else CutDrains(run, actions, n - 1, i, toUser) + (if CutsDrain(run[n - 1], actions[n - 1], i, toUser) then 1 else 0)
  }

  function DrainWire(k: Conn, toUser: bool): Wire { if toUser then k.respWire else k.reqWire }

  lemma OneActionCuts(hash: string -> int, s: Sys, a: Action, toUser: bool)
    requires Possible(s, a) && !a.Accept?
    ensures DrainWire(ApplyAt(hash, s.conns[a.i], s.cache, a).0, toUser).cuts
      == DrainWire(s.conns[a.i], toUser).cuts + (if CutsDrain(s, a, a.i, toUser) then 1 else 0)
  {
    hide Wf, UserRead, ServerRead, DeleteUser, DeleteServer, SendBuf, ProofSend, RefreshReady, NextPc, UserMayDrain,
      ServerMayDrain;
    var k, c := s.conns[a.i], s.cache;
    match a {
      case UserChunk(_, chunk, connected) => UserReadWritesNothing(hash, k, c, chunk, connected);
      case ServerChunk(_, chunk, connected) => ServerReadWritesNothing(hash, k, c, chunk, connected);
      case DrainServer(_, _) =>
      case DrainUser(_, _) =>
      case Look(_) =>
      case ReadCash(_, _, _) =>
      case _ => TeardownWritesNothing(k, c);
    }
  }

  lemma {:induction false} CutsAreFailedDrains(hash: string -> int, run: seq<Sys>, actions: seq<Action>, n: nat, i: nat,
                                               toUser: bool)
    requires IsHistory(hash, run, actions) && n < |run|
    ensures CutDrains(run, actions, n, i, toUser)
      == if i < |run[n].conns| then DrainWire(run[n].conns[i], toUser).cuts else 0
  {
    hide Wf, PossibleAt, ApplyAt, CutsDrain;
    if n > 0 {
      var s, a := run[n - 1], actions[n - 1];
      assert run[n - 1 + 1] == Apply(hash, s, a);
      CutsAreFailedDrains(hash, run, actions, n - 1, i, toUser);
      if CutsDrain(s, a, i, toUser) { CutsOwnDrain(s, a, i, toUser); }
      if !a.Accept? { OneActionCuts(hash, s, a, toUser); }
    }
  }

  lemma CutsOwnDrain(s: Sys, a: Action, i: nat, toUser: bool)
    requires CutsDrain(s, a, i, toUser)
    ensures !a.Accept? && a.i == i && i < |s.conns|
  {
  }
}
