/** The handler's passes and the histories of the system: what a pass demands holds whenever one begins,
    as long as no second origin has been put on the buffer, and that never happens in turn. */
module HandlerTheorems {
  import opened Wrappers
  import opened Parser
  import opened CacheSpec
  import opened BufferSpec
  import opened ProxySystem
  import opened ProxyInvariant
  import opened ProxyHistories
  import opened HandlerSpec
  import opened Ownership

  /** What the methods demand of a connection holds in every state of every history in which no second
      origin has been put on its buffer, whatever else its peers have sent and when. */
  lemma PassesBeginSteady(hash: string -> int, run: seq<Sys>, actions: seq<Action>, n: nat, i: nat)
    requires IsHistory(hash, run, actions) && n < |run| && i < |run[n].conns|
    requires OneOrigin(hash, run, actions, n, i)
    ensures SteadyConn(run[n].conns[i]) && Wf(run[n].conns[i].b, run[n].cache)
  {
    HistoryBase(hash, run, actions, n);
    StaysOwned(hash, run, actions, n, i);
    hide IsHistory, OneOrigin, BaseInv, Cache.Wf;
    PointersAreGood(hash, run[n], i);
  }

  /** The only demand of the methods besides is that the pass does not put a second origin there, so that
      the demands of a pass hold throughout a history exactly as long as the buffer is owned. */
  lemma PassAsksIffOwnerLost(hash: string -> int, k: Conn, c: Cache, e: Event)
    requires Wf(k.b, c) && Owned(k) && IsRead(e) && HasChunk(e)
    ensures k.user && k.reader.NoReader? ==>
      (PassAsksAgain(hash, k, c, e) <==> !Owned(UserRead(hash, k, c, e.chunk, e.connected).0))
    ensures k.server ==>
      (PassAsksAgain(hash, k, c, e) <==> !Owned(ServerRead(hash, k, c, e.chunk, e.connected).0))
  {
    hide Wf, Owned, AsksAgain, UserRead, ServerRead;
    if k.user && k.reader.NoReader? { UserReadOwned(hash, k, c, e.chunk, e.connected); }
    if k.server { ServerReadOwned(hash, k, c, e.chunk, e.connected); }
  }

  /** A user's chunk that comes in turn never puts a second origin on the buffer. */
  lemma UserInTurnAsksOnce(hash: string -> int, k: Conn, c: Cache, e: Event)
    requires Wf(k.b, c) && ConnInv(hash, k, c.store) && CacheInv(c) && HashesAgree(hash, c.store)
    requires k.user && k.reader.NoReader? && IsRead(e) && UserInTurn(hash, k, c, e)
    ensures !PassAsksAgain(hash, k, c, e)
  {
    hide Wf, ConnInv, CacheInv, HashesAgree, AsksAgain, ParsesInVain;
    if HasChunk(e) { InTurnKeepsOneOrigin(hash, k, c, UserChunk(0, e.chunk, e.connected)); }
  }

  lemma OriginInTurnAsksOnce(hash: string -> int, k: Conn, c: Cache, e: Event)
    requires Wf(k.b, c) && ConnInv(hash, k, c.store) && CacheInv(c) && HashesAgree(hash, c.store)
    requires k.server && IsRead(e) && OriginInTurn(hash, k, c, e)
    ensures !PassAsksAgain(hash, k, c, e)
  {
    hide Wf, ConnInv, CacheInv, HashesAgree, AsksAgain, ParsesInVain;
    if HasChunk(e) { InTurnKeepsOneOrigin(hash, k, c, ServerChunk(0, e.chunk, e.connected)); }
  }
}
