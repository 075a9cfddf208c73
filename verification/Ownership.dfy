/** Who owns the shared buffer, in every history (lab32v2/server/HandlerOneClientImpl.cpp:99-117 and
    181-239): teardown in any order, early or late chunks and an origin in place of one that has left
    leave ownership intact; only a second origin beside the first ends it. */
module Ownership {
  import opened Wrappers
  import opened Parser
  import opened CacheSpec
  import opened BufferSpec
  import opened ProxySystem
  import opened ProxyInvariant
  import opened ProxyRoles
  import opened ProxyOrder
  import opened ProxyHistories
  import opened HandlerSpec

  /** The action is a chunk that puts a second origin on the buffer, beside one that is still there. */
  predicate PutsSecondOrigin(hash: string -> int, k: Conn, c: Cache, a: Action)
    requires Wf(k.b, c)
  {
    (a.UserChunk? || a.ServerChunk?) && AsksAgain(hash, k, c, a.chunk, a.connected)
  }

  lemma UserReadOwned(hash: string -> int, k: Conn, c: Cache, chunk: string, connected: bool)
    requires Wf(k.b, c) && Owned(k) && k.user && k.reader.NoReader?
    ensures Owned(UserRead(hash, k, c, chunk, connected).0) <==> !AsksAgain(hash, k, c, chunk, connected)
  {
    ReadKeepsEnds(hash, k.b, c, chunk);
    hide Cache.Wf, ReadFromSocket, LeftByOrigin, LeftByReader;
  }

  lemma ServerReadOwned(hash: string -> int, k: Conn, c: Cache, chunk: string, connected: bool)
    requires Wf(k.b, c) && Owned(k) && k.server
    ensures Owned(ServerRead(hash, k, c, chunk, connected).0) <==> !AsksAgain(hash, k, c, chunk, connected)
  {
    ReadKeepsEnds(hash, k.b, c, chunk);
    hide Cache.Wf, ReadFromSocket, LeftByOrigin, LeftByReader;
  }

  lemma TeardownOwned(k: Conn, c: Cache)
    requires Wf(k.b, c) && Owned(k)
    ensures k.server ==> Owned(DeleteServer(k, c).0)
    ensures k.user ==> Owned(DeleteUser(k, c).0)
  {
    hide Wf, LeftByOrigin, LeftByReader;
  }

  lemma QuietOwned(k: Conn, k': Conn)
    requires Owned(k)
    requires k'.frees == k.frees && k'.origins == k.origins && k'.user == k.user && k'.server == k.server
    requires k'.userHasPair == k.userHasPair && k'.serverKnowsUser == k.serverKnowsUser
    requires k'.b.isClientConnect == k.b.isClientConnect && k'.b.isServerConnect == k.b.isServerConnect
    requires k'.b.isReadyConnectHttpServer == k.b.isReadyConnectHttpServer
    requires k'.b.isDataGetCash == k.b.isDataGetCash && (k'.reader.NoReader? <==> k.reader.NoReader?)
    ensures Owned(k')
  {
  }

  /** One action of the connection: ownership survives it exactly if it puts no second origin there. */
  lemma OwnedIff(hash: string -> int, k: Conn, c: Cache, a: Action)
    requires Wf(k.b, c) && Owned(k) && !a.Accept? && PossibleAt(k, c, a)
    ensures Owned(ApplyAt(hash, k, c, a).0) <==> !PutsSecondOrigin(hash, k, c, a)
  {
    hide Wf, UserRead, ServerRead, DeleteUser, DeleteServer, AsksAgain, SendBuf, Written;
    match a {
      case UserChunk(_, chunk, connected) => UserReadOwned(hash, k, c, chunk, connected);
      case ServerChunk(_, chunk, connected) => ServerReadOwned(hash, k, c, chunk, connected);
      case CloseServer(_) => TeardownOwned(k, c);
      case CloseUser(_) => TeardownOwned(k, c);
      case ReaderExit(_) => TeardownOwned(k, c);
      case DrainServer(_, taken) =>
        DrainKeepsOwner(k.b, c);
        hide ProofSend, RefreshReady;
        QuietOwned(k, DrainToServer(k, c, taken));
      case DrainUser(_, taken) =>
        DrainKeepsOwner(k.b, c);
        hide ProofSend, RefreshReady;
        QuietOwned(k, DrainToUser(k, c, taken));
      case Look(_) =>
        DrainKeepsOwner(k.b, c);
        hide ProofSend, RefreshReady;
        QuietOwned(k, LookAt(k, c));
      case ReadCash(_, ok, taken) =>
        ReaderKeepsOwner(k, c, ok, taken);
        hide ReaderStep;
        QuietOwned(k, ReaderStep(k, c, ok, taken));
    }
  }

  /** The fields of a buffer that ownership is about. */
  predicate SameOwner(b: Buf, r: Buf) {
    && r.isClientConnect == b.isClientConnect && r.isServerConnect == b.isServerConnect
    && r.isReadyConnectHttpServer == b.isReadyConnectHttpServer && r.isDataGetCash == b.isDataGetCash
  }

  lemma DrainKeepsOwner(b: Buf, c: Cache)
    requires Wf(b, c)
    ensures SameOwner(b, RefreshReady(b, c))
    ensures Wf(RefreshReady(b, c), c) && (!b.isDataGetCash ==> |SendBuf(b, c, "")| <= |b.buf|)
    ensures SameOwner(b, ProofSend(RefreshReady(b, c), c, SendBuf(b, c, "")))
  {
    hide Cache.Wf;
  }

  lemma ReaderKeepsOwner(k: Conn, c: Cache, ok: bool, taken: nat)
    requires Wf(k.b, c) && k.b.isDataGetCash && !k.reader.NoReader?
    ensures var k' := ReaderStep(k, c, ok, taken);
      && SameOwner(k.b, k'.b) && !k'.reader.NoReader?
      && k' == k.(b := k'.b, reader := k'.reader, run := k'.run, cashOut := k'.cashOut, cashWire := k'.cashWire)
  {
    hide Wf, SendBuf, Written, RefreshReady, ProofSend, SameOwner, NextPc;
    CountingKeepsOwner(k.b, c);
    var k' := ReaderStep(k, c, ok, taken);
    assert k'.b == k.b || k'.b == RefreshReady(k.b, c)
      || (k.reader.SendProof? && k'.b == ProofSend(k.b, c, k.reader.sent));
    NextIsReader(k, c, ok, taken);
  }

  lemma CountingKeepsOwner(b: Buf, c: Cache)
    requires Wf(b, c) && b.isDataGetCash
    ensures SameOwner(b, b) && SameOwner(b, RefreshReady(b, c))
    ensures forall sent :: SameOwner(b, ProofSend(b, c, sent))
  {
    hide Cache.Wf;
  }

  lemma NextIsReader(k: Conn, c: Cache, ok: bool, taken: nat)
    requires Wf(k.b, c) && k.b.isDataGetCash && !k.reader.NoReader?
    ensures !ReaderStep(k, c, ok, taken).reader.NoReader?
  {
    hide Wf, SendBuf, Written, RefreshReady, ProofSend, NextPc, ReaderTest, ReaderWrite;
    if k.reader.SendWrite? {
      WriteIsReader(k, c, ok, taken);
    } else if !k.reader.SendProof? {
      TestIsReader(k, c, ok);
    }
  }

  lemma WriteIsReader(k: Conn, c: Cache, ok: bool, taken: nat)
    requires Wf(k.b, c) && k.reader.SendWrite?
    ensures !ReaderWrite(k, c, ok, taken).reader.NoReader?
  {
    hide Wf, SendBuf, Written;
  }

  lemma TestIsReader(k: Conn, c: Cache, ok: bool)
    requires Wf(k.b, c) && k.b.isDataGetCash && !k.reader.NoReader?
    ensures !ReaderTest(k, c, ok).reader.NoReader?
  {
    hide Cache.Wf, RefreshReady, NextPc;
    NextPcIsReader(k, c.store[k.b.cashElement.value], RefreshReady(k.b, c).isReadyToSend, ok);
  }

  lemma NextPcIsReader(k: Conn, e: Elem, ready: bool, ok: bool)
    requires !k.reader.NoReader?
    ensures !NextPc(k, e, ready, ok).NoReader?
  {
  }

  // ----- Over histories -----

  /** No chunk of connection `i` among the first `n` actions puts a second origin on its buffer. */
  ghost predicate OneOrigin(hash: string -> int, run: seq<Sys>, actions: seq<Action>, n: nat, i: nat)
    requires n <= |actions| && n <= |run|
  {
    forall j | 0 <= j < n && !actions[j].Accept? && actions[j].i == i && i < |run[j].conns| ::
      Wf(run[j].conns[i].b, run[j].cache)
      && !PutsSecondOrigin(hash, run[j].conns[i], run[j].cache, actions[j])
  }

  /** From any state with an owned connection, any action of anybody. */
  lemma StepOwnedIff(hash: string -> int, s: Sys, a: Action, i: nat)
    requires Possible(s, a) && i < |s.conns| && Owned(s.conns[i])
    ensures i < |Apply(hash, s, a).conns|
    ensures Owned(Apply(hash, s, a).conns[i]) <==>
      a.Accept? || a.i != i || !PutsSecondOrigin(hash, s.conns[i], s.cache, a)
  {
    hide Wf, PossibleAt, ApplyAt, Owned, PutsSecondOrigin;
    if !a.Accept? && a.i == i {
      OwnedIff(hash, s.conns[i], s.cache, a);
    }
  }

  /** Whatever else is sent and whoever leaves when, a buffer is owned throughout a history exactly if
      no second origin is ever put on it. */
  lemma {:induction false} OwnedIffOneOrigin(hash: string -> int, run: seq<Sys>, actions: seq<Action>, i: nat)
    requires IsHistory(hash, run, actions)
    ensures (forall n | 0 <= n < |run| && i < |run[n].conns| :: Owned(run[n].conns[i]))
      <==> OneOrigin(hash, run, actions, |actions|, i)
  {
    hide Possible, Apply, Owned, PutsSecondOrigin, Wf;
    if forall n | 0 <= n < |run| && i < |run[n].conns| :: Owned(run[n].conns[i]) {
      forall j | 0 <= j < |actions| && !actions[j].Accept? && actions[j].i == i && i < |run[j].conns|
        ensures Wf(run[j].conns[i].b, run[j].cache)
          && !PutsSecondOrigin(hash, run[j].conns[i], run[j].cache, actions[j])
      {
        assert run[j + 1] == Apply(hash, run[j], actions[j]);
        OwnActionIsWf(run[j], actions[j]);
        StepOwnedIff(hash, run[j], actions[j], i);
      }
    }
    if OneOrigin(hash, run, actions, |actions|, i) {
      forall n | 0 <= n < |run| && i < |run[n].conns| ensures Owned(run[n].conns[i]) {
        StaysOwned(hash, run, actions, n, i);
      }
    }
  }

  lemma OwnActionIsWf(s: Sys, a: Action)
    requires Possible(s, a) && !a.Accept?
    ensures a.i < |s.conns| && Wf(s.conns[a.i].b, s.cache)
  {
  }

  lemma {:induction false} StaysOwned(hash: string -> int, run: seq<Sys>, actions: seq<Action>, n: nat, i: nat)
    requires IsHistory(hash, run, actions) && n < |run| && i < |run[n].conns|
    requires OneOrigin(hash, run, actions, n, i)
    ensures Owned(run[n].conns[i])
  {
    hide Possible, Apply, Owned, PutsSecondOrigin, Wf;
    if n > 0 {
      var s, a := run[n - 1], actions[n - 1];
      assert run[n - 1 + 1] == Apply(hash, s, a);
      if i < |s.conns| {
        StaysOwned(hash, run, actions, n - 1, i);
        StepOwnedIff(hash, s, a, i);
      } else {
        NewConnIsFresh(hash, s, a, i);
        AcceptedIsOwned();
      }
    }
  }

  lemma AcceptedIsOwned()
    ensures Owned(ACCEPTED)
  {
  }

  /** So, as long as no second origin is put on it: the shared buffer has been deleted exactly if both
      endpoints are gone and both are marked disconnected, and never more than once; an endpoint that
      still exists knows its partner exactly while the partner exists; and nothing can happen any more
      to a connection whose buffer is gone. */
  lemma BufferFreedOnce(hash: string -> int, run: seq<Sys>, actions: seq<Action>, n: nat, i: nat, a: Action)
    requires IsHistory(hash, run, actions) && n < |run| && i < |run[n].conns|
    requires OneOrigin(hash, run, actions, n, i)
    ensures var k := run[n].conns[i];
      && k.frees <= 1
      && (k.frees == 1 <==> !k.user && !k.server)
      && (k.frees == 1 <==> !k.b.isClientConnect && !k.b.isServerConnect)
      && (k.userHasPair <==> k.user && k.server)
      && (k.serverKnowsUser <==> k.user && k.server)
      && (!a.Accept? && a.i == i && Possible(run[n], a) ==> k.frees == 0)
  {
    StaysOwned(hash, run, actions, n, i);
    hide IsHistory, RefreshReady;
  }

  /** Once freed, a connection never changes again. */
  lemma FreedIsFinal(hash: string -> int, s: Sys, a: Action, i: nat)
    requires Possible(s, a) && i < |s.conns| && Owned(s.conns[i]) && s.conns[i].frees == 1
    ensures i < |Apply(hash, s, a).conns| && Apply(hash, s, a).conns[i] == s.conns[i]
  {
    hide Wf, ApplyAt, RefreshReady;
  }

  /** A chunk that comes in turn never puts a second origin on the buffer; many that do not, do not
      either. */
  lemma InTurnKeepsOneOrigin(hash: string -> int, k: Conn, c: Cache, a: Action)
    requires Wf(k.b, c) && ConnInv(hash, k, c.store) && CacheInv(c) && HashesAgree(hash, c.store)
    requires !a.Accept? && PossibleAt(k, c, a) && InTurn(hash, k, c, a)
    ensures !PutsSecondOrigin(hash, k, c, a)
  {
    hide Wf, CacheInv, HashesAgree, InSomePhase, Writes, Owned, PutsSecondOrigin, ApplyAt, PossibleAt, InTurn;
    InTurnIffKept(hash, k, c, a);
    OwnedIff(hash, k, c, a);
  }
}
