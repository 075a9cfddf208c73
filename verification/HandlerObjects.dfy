/** The handler of one client as the source writes it: endpoints that share a buffer, a list of
    endpoints that is edited while it is walked, and the send loop of a cache reader
    (lab32v2/server/HandlerOneClientImpl.cpp, lab32v2/client/ClientImpl.cpp). Every method is proved
    against the function of module ProxySystem that says what it does. */
module HandlerObjects {
  import opened Wrappers
  import opened CacheSpec
  import opened BufferSpec
  import opened ProxySystem
  import opened Deliveries
  import opened HandlerSpec
  import opened CashObjects
  import opened BufferObjects

  /** What has been read from an endpoint's socket, in time and after the exchange was over; what the
      buffer has counted as sent to it; and how many writes took less than was counted. */
  datatype Log = Log(read: string, late: string, counted: string, cuts: nat)

  const EMPTY_LOG := Log("", "", "", 0)

  class ClientImpl {
    const isUser: bool
    var buffer: BufferImpl?
    var pair: ClientImpl?
    var listHandlingEvent: seq<ClientImpl>
    /** Everything the socket has taken. */
    var written: string
    /** What the socket of the endpoint had taken that this one replaces, and the log, which goes on. */
    ghost const before: string
    ghost var log: Log
    /** False once the endpoint has been deleted. */
    ghost var live: bool

    constructor (isUser: bool, buffer: BufferImpl, ghost before: string, ghost log: Log)
      ensures this.isUser == isUser && this.buffer == buffer && pair == null && listHandlingEvent == []
      ensures written == "" && live
      ensures Sent() == Wire(before, log.cuts) && this.log == log
    {
      this.isUser, this.buffer := isUser, buffer;
      pair, listHandlingEvent, written := null, [], "";
      this.before, this.log, live := before, log, true;
      new;
      assert before + "" == before;
    }

    /** Removes the first entry for `client`. */
    method EraseIt(client: ClientImpl)
      requires live
      modifies `listHandlingEvent
      ensures listHandlingEvent == Erased(old(listHandlingEvent), client)
    {
      ghost var was := listHandlingEvent;
      var it := 0;
      while it < |listHandlingEvent|
        invariant it <= |listHandlingEvent| && listHandlingEvent == was && client !in was[..it]
      {
        if listHandlingEvent[it] == client {
          assert was == was[..it] + [client] + was[it + 1..];
          ErasedSplits(was[..it], client, was[it + 1..]);
          listHandlingEvent := listHandlingEvent[..it] + listHandlingEvent[it + 1..];
          return;
        }
        it := it + 1;
      }
      assert was[..it] == was;
      ErasedAbsent(was, client);
    }

    /** One write, of which the socket takes at most `outcome` bytes; a negative outcome is an error. */
    method SendBuf(buf: string, outcome: int) returns (code: int)
      requires live
      modifies `written
      ensures code == if outcome < 0 then -1 else Min(outcome, |buf|)
      ensures written == old(written) + buf[..Min(Taken(outcome), |buf|)]
    {
      if outcome < 0 {
        assert written + buf[..0] == written;
        return -1;
      }
      code := Min(outcome, |buf|);
      written := written + buf[..code];
    }

    ghost function Sent(): Wire
      reads this
    {
      Wire(before + written, log.cuts)
    }

    /** Notes that the buffer counts `chunk` as sent, after a write with `outcome`. */
    ghost method Count(chunk: string, outcome: int)
      modifies `log
      ensures log == old(log).(counted := old(log).counted + chunk,
                               cuts := old(log).cuts + if Taken(outcome) < |chunk| then 1 else 0)
    {
      log := log.(counted := log.counted + chunk, cuts := log.cuts + if Taken(outcome) < |chunk| then 1 else 0);
    }

    /** Line 153: a write of which the handler ignores the outcome. */
    method Drained(chunk: string, outcome: int)
      requires live
      modifies `written, `log
      ensures Sent() == Written(old(Sent()), chunk, Taken(outcome))
      ensures log == old(log).(counted := old(log).counted + chunk, cuts := log.cuts)
    {
      ghost var was := written;
      var code := SendBuf(chunk, outcome);
      Count(chunk, outcome);
      ghost var piece := chunk[..Min(Taken(outcome), |chunk|)];
      assert before + (was + piece) == before + was + piece;
    }

    ghost method Note(chunk: string, over: bool)
      modifies `log
      ensures log == if over then old(log).(late := old(log).late + chunk) else old(log).(read := old(log).read + chunk)
    {
      log := if over then log.(late := log.late + chunk) else log.(read := log.read + chunk);
    }
  }

  function IndexOf<T(==)>(s: seq<T>, x: T): (p: nat)
    requires x in s
    ensures p < |s| && s[p] == x && x !in s[..p]
  {
    if s[0] == x then 0 else 1 + IndexOf(s[1..], x)
  }

  const SUCCESS := 0
  const FAILURE := 1

  class HandlerOneClientImpl {
    var clientList: seq<ClientImpl>
    const client: ClientImpl
    // history: the one buffer of this connection, and the last origin that has been connected
    ghost const buffer: BufferImpl
    ghost var server: ClientImpl?

    constructor (client: ClientImpl)
      requires client.isUser && client.live && client.pair == null
      requires client.buffer != null && client.buffer.Valid()
      requires client.buffer.isClientConnect && !client.buffer.isServerConnect
      ensures Valid() && this.client == client && buffer == client.buffer && server == null
      ensures clientList == [client]
    {
      clientList := [client];
      this.client, buffer, server := client, client.buffer, null;
    }

    ghost function Origin(): set<ClientImpl>
      reads `server
    {
      if server == null then {} else {server}
    }

    ghost predicate HasServer()
      reads `server, Origin()`live
    {
      server != null && server.live
    }

    /** The part of the invariant about who points to whom. */
    ghost predicate Linked()
      reads `server, client`live, client`buffer, client`pair, Origin()`live, Origin()`buffer,
        Origin()`listHandlingEvent, buffer, buffer.cash
    {
      && client.isUser && (server != null ==> !server.isUser)
      && (client.live ==> client.buffer == buffer && (client.pair == null || client.pair == server))
      && (HasServer() ==> server.buffer == buffer)
      && (HasServer() ==> server.listHandlingEvent == [] || (client.live && server.listHandlingEvent == [client]))
      && buffer.isClientConnect == client.live
      && buffer.isServerConnect == HasServer()
      && (if client.live || HasServer() then buffer.Valid() else !buffer.live && buffer.cash.Valid())
    }

    ghost function Listed(): seq<ClientImpl>
      reads `server, client`live, Origin()`live
    {
      (if HasServer() then [server] else []) + (if client.live then [client] else [])
    }

    ghost predicate Valid()
      reads `clientList, `server, client`live, client`buffer, client`pair, Origin()`live, Origin()`buffer,
        Origin()`listHandlingEvent, buffer, buffer.cash
    {
      Linked() && clientList == Listed()
    }

    lemma CashIsValid()
      requires Valid()
      ensures buffer.cash.Valid() && (client.live || HasServer() ==> buffer.Valid())
    {
    }

    /** What holds besides when a pass over an endpoint begins. */
    ghost predicate Steady()
      reads `server, client, server, buffer
    {
      SteadyConn(Ends())
    }

    /** The relay as module ProxySystem sees it, with its histories. */
    ghost function Ends(): Conn
      reads `server, client, server, buffer
    {
      var origin := LastLog();
      Conn(buffer.State(), if buffer.live then 0 else 1, if HasServer() then 1 else 0, client.live, HasServer(),
           client.live && client.pair != null, HasServer() && server.listHandlingEvent != [], NoReader, true,
           client.log.read, origin.counted, origin.read, client.log.counted, origin.late, "",
           Wire(LastSent(), origin.cuts), client.Sent(), SILENT)
    }

    /** What the origins of this connection have been sent, and the log of the last one. */
    ghost function LastSent(): string
      reads `server, server
    {
      if server == null then "" else server.Sent().sent
    }

    ghost function LastLog(): Log
      reads `server, server
    {
      if server == null then EMPTY_LOG else server.log
    }

    /** Lines 103-110, when the origin accepts the connection. */
    method Connect()
      requires Valid() && client.live && !HasServer()
      modifies `clientList, `server, client`pair, buffer
      ensures Valid() && fresh(server) && HasServer() && client.live
      ensures Ends() == var k := old(Ends());
        k.(b := k.b.(isServerConnect := true), origins := k.origins + 1, server := true, userHasPair := true,
           serverKnowsUser := true)
    {
      ghost var sent, log := LastSent(), LastLog();
      var origin := new ClientImpl(false, client.buffer, sent, log);
      origin.buffer.OpenServer();
      client.pair := origin;
      origin.listHandlingEvent := origin.listHandlingEvent + [client];
      clientList := [origin] + clientList;
      server := origin;
    }

    /** Line 78: the shared buffer takes a chunk from either endpoint. */
    method Receive(endpoint: ClientImpl, chunk: string) returns (ok: bool)
      requires Valid() && endpoint.live && (endpoint == client || endpoint == server)
      requires HasParsedRequest(buffer.State())
      modifies endpoint`log, buffer, buffer.cash, buffer.cash.created
      ensures Valid() && buffer.live
      ensures old(buffer.cash.created) <= buffer.cash.created
      ensures forall i | |old(buffer.cash.created)| <= i < |buffer.cash.created| :: fresh(buffer.cash.created[i])
      ensures Wf(old(buffer.State()), old(buffer.cash.State()))
      ensures ReadFromSocket(buffer.cash.hasher, old(buffer.State()), old(buffer.cash.State()), chunk)
        == Out(buffer.State(), buffer.cash.State(), ok)
      ensures Wf(buffer.State(), buffer.cash.State()) && SameEnds(old(buffer.State()), buffer.State())
      ensures endpoint.log == old(endpoint.log).(read := endpoint.log.read, late := endpoint.log.late)
      ensures var over := !endpoint.isUser && old(buffer.statusHttpServer).EndWork?;
        && endpoint.log.read == (if over then old(endpoint.log).read else old(endpoint.log).read + chunk)
        && endpoint.log.late == (if over then old(endpoint.log).late + chunk else old(endpoint.log).late)
      ensures buffer.isDataGetCash && !old(buffer.isDataGetCash)
        ==> ok && buffer.statusClient.ReadResponse? && old(buffer.statusClient).WriteRequestHeading?
    {
      hide CashImpl.State, CashImpl.Valid, CashImpl.Has, Cache.Wf, Wf, BufferImpl.State, BufferImpl.Valid,
        ReadFromSocket, HasParsedRequest;
      buffer.ValidIsWf();
      buffer.Flags();
      ReadKeepsEnds(buffer.cash.hasher, buffer.State(), buffer.cash.State(), chunk);
      ghost var over := !endpoint.isUser && buffer.statusHttpServer.EndWork?;
      ok := endpoint.buffer.ReadFromSocket(chunk);
      endpoint.Note(chunk, over);
      buffer.ValidIsWf();
      buffer.Flags();
    }

    /** Lines 78-117 for the user's endpoint. */
    method ReadFromUser(chunk: string, connected: bool) returns (done: bool)
      requires Valid() && Steady() && client.live && chunk != ""
      requires Wf(Ends().b, buffer.cash.State())
        && !PassAsksAgain(buffer.cash.hasher, Ends(), buffer.cash.State(), Received(chunk, connected))
      modifies `clientList, `server, client, server, buffer, buffer.cash, buffer.cash.created
      ensures Valid()
      ensures var (k, c) := UserRead(buffer.cash.hasher, old(Ends()), old(buffer.cash.State()), chunk, connected);
        && Ends() == k.(reader := NoReader) && buffer.cash.State() == c
        && (done <==> k.reader.TestOrigin? || !k.user)
      ensures server == old(server) || fresh(server)
      ensures old(buffer.cash.created) <= buffer.cash.created
      ensures forall i | |old(buffer.cash.created)| <= i < |buffer.cash.created| :: fresh(buffer.cash.created[i])
      ensures !done ==> client.live && (client.pair != null <==> HasServer())
    {
      hide CashImpl.State, CashImpl.Valid, CashImpl.Has, Cache.Wf, Wf, BufferImpl.State, BufferImpl.Valid,
        ReadFromSocket, DeleteUser, Listed, Linked;
      ghost var k := Ends();
      var ok := TakeFromUser(chunk);
      ghost var k1, c1 := Ends(), buffer.cash.State();
      if ok && client.buffer.statusClient.ReadResponse? && client.buffer.isDataGetCash {
        return true;
      }
      if !client.buffer.isReadyConnectHttpServer {
        return false;
      }
      Cleared(k1.b, c1);
      UserGoes(k1.(b := k1.b.(isReadyConnectHttpServer := false)), c1);
      ConnectToOrigin(connected);
      CashIsValid();
      return !connected;
    }

    /** Line 78 for the user's endpoint. */
    method TakeFromUser(chunk: string) returns (ok: bool)
      requires Valid() && Steady() && client.live && Wf(Ends().b, buffer.cash.State())
      modifies client`log, buffer, buffer.cash, buffer.cash.created
      ensures Valid() && buffer.live && client.live && client.buffer == buffer && (client.pair != null <==> HasServer())
      ensures buffer.cash.Valid() && Wf(Ends().b, buffer.cash.State())
      ensures old(buffer.cash.created) <= buffer.cash.created
      ensures forall i | |old(buffer.cash.created)| <= i < |buffer.cash.created| :: fresh(buffer.cash.created[i])
      ensures ReadFromSocket(buffer.cash.hasher, old(Ends()).b, old(buffer.cash.State()), chunk)
        == Out(Ends().b, buffer.cash.State(), ok)
      ensures Ends() == old(Ends()).(b := Ends().b, reqIn := old(Ends()).reqIn + chunk)
      ensures var b := Ends().b;
        && b.statusClient == buffer.statusClient && b.isDataGetCash == buffer.isDataGetCash
        && b.isReadyConnectHttpServer == buffer.isReadyConnectHttpServer
    {
      hide CashImpl.State, CashImpl.Valid, CashImpl.Has, Cache.Wf, Wf, BufferImpl.State, BufferImpl.Valid,
        ReadFromSocket, Listed;
      buffer.ValidIsWf();
      buffer.Flags();
      ok := Receive(client, chunk);
      buffer.ValidIsWf();
      buffer.Flags();
    }

    /** Lines 99-117 for the user's endpoint. */
    method ConnectToOrigin(connected: bool)
      requires Valid() && client.live && (client.pair != null <==> HasServer()) && (connected ==> !HasServer())
      modifies `clientList, `server, client`pair, client`buffer, client`live, Origin()`listHandlingEvent,
        Origin()`buffer, Origin()`live, buffer, buffer.cash.created
      ensures Valid()
      ensures Wf(old(Ends()).b, old(buffer.cash.State()))
      ensures var k := old(Ends()).(b := old(Ends()).b.(isReadyConnectHttpServer := false));
        (Ends(), buffer.cash.State()) ==
        if connected then
          (k.(b := k.b.(isServerConnect := true), origins := k.origins + 1, server := true, userHasPair := true,
              serverKnowsUser := true),
           old(buffer.cash.State()))
        else DeleteUser(k, old(buffer.cash.State()))
      ensures server == old(server) || fresh(server)
      ensures connected ==> client.live && client.pair != null && HasServer()
    {
      hide CashImpl.State, CashImpl.Valid, CashImpl.Has, Cache.Wf, Wf, BufferImpl.State, BufferImpl.Valid, DeleteUser;
      buffer.ValidIsWf();
      buffer.Flags();
      client.buffer.ClearReadyConnect();
      buffer.ValidIsWf();
      if connected {
        buffer.Flags();
        Connect();
        buffer.Flags();
      } else {
        var next := DeleteClient(client);
      }
    }

    /** Lines 78-117 for the origin's endpoint. If its bytes make the buffer ask for an origin and none
        is found, this one goes (and the thread ends). */
    method ReadFromOrigin(endpoint: ClientImpl, chunk: string, connected: bool) returns (done: bool)
      requires Valid() && Steady() && endpoint == server && HasServer() && chunk != ""
      requires Wf(Ends().b, buffer.cash.State())
        && !PassAsksAgain(buffer.cash.hasher, Ends(), buffer.cash.State(), Received(chunk, connected))
      modifies `clientList, client, server, buffer, buffer.cash, buffer.cash.created
      ensures Valid()
      ensures (Ends(), buffer.cash.State())
        == ServerRead(buffer.cash.hasher, old(Ends()), old(buffer.cash.State()), chunk, connected)
      ensures done <==> !HasServer()
      ensures old(buffer.cash.created) <= buffer.cash.created
      ensures forall i | |old(buffer.cash.created)| <= i < |buffer.cash.created| :: fresh(buffer.cash.created[i])
    {
      hide CashImpl.State, CashImpl.Valid, CashImpl.Has, Cache.Wf, Wf, BufferImpl.State, BufferImpl.Valid,
        ReadFromSocket, DeleteServer;
      buffer.ValidIsWf();
      buffer.Flags();
      ghost var k := Ends();
      var ok := Receive(endpoint, chunk);
      buffer.Flags();
      ghost var over := k.b.statusHttpServer == EndWork;
      ghost var k1 := k.(b := buffer.State(), respIn := if over then k.respIn else k.respIn + chunk,
                         late := if over then k.late + chunk else k.late);
      assert Ends() == k1;
      if endpoint.buffer.isReadyConnectHttpServer {
        RefuseOrigin(endpoint);
        return true;
      }
      return false;
    }

    /** Lines 100 and 112-116 for the origin's endpoint. */
    method RefuseOrigin(endpoint: ClientImpl)
      requires Valid() && endpoint == server && HasServer()
      modifies `clientList, client`pair, Origin()`buffer, Origin()`live, Origin()`listHandlingEvent, client`buffer,
        client`live, buffer, buffer.cash.created
      ensures Valid() && !HasServer()
      ensures Wf(old(Ends()).b.(isReadyConnectHttpServer := false), old(buffer.cash.State()))
      ensures (Ends(), buffer.cash.State())
        == DeleteServer(old(Ends()).(b := old(Ends()).b.(isReadyConnectHttpServer := false)), old(buffer.cash.State()))
    {
      hide CashImpl.State, CashImpl.Valid, CashImpl.Has, Cache.Wf, Wf, BufferImpl.State, BufferImpl.Valid, DeleteServer;
      buffer.ValidIsWf();
      Cleared(buffer.State(), buffer.cash.State());
      endpoint.buffer.ClearReadyConnect();
      buffer.ValidIsWf();
      var next := DeleteClient(endpoint);
    }

    /** The closing rules and the drain for the user's endpoint (lines 124-171). */
    method ApplyUserRules(writable: Option<int>)
      requires Valid() && client.live && (client.pair != null <==> HasServer())
      modifies `clientList, client, server, buffer, buffer.cash.created
      ensures Valid()
      ensures Wf(old(Ends()).b, old(buffer.cash.State()))
      ensures (Ends(), buffer.cash.State()) == UserRules(old(Ends()), old(buffer.cash.State()), writable)
    {
      hide CashImpl.State, CashImpl.Valid, CashImpl.Has, Cache.Wf, Wf, BufferImpl.State, BufferImpl.Valid,
        DeleteUser, BufferSpec.SendBuf, BufferSpec.ProofSend, RefreshReady, Listed, FinishIfClosed;
      buffer.ValidIsWf();
      buffer.Flags();
      ghost var k, c := Ends(), buffer.cash.State();
      RefreshedOnce(k.b, c);
      var closed := CloseUserIfOver();
      if !closed && writable.Some? {
        var ready := TestReady(client);
        buffer.Flags();
        if ready && client.buffer.statusClient.ReadResponse? {
          DrainToClient(writable.value);
        }
      }
    }

    /** The closing rules alone (lines 124-137). Asking whether there is anything left may raise the flag. */
    method CloseUserIfOver() returns (closed: bool)
      requires Valid() && client.live && (client.pair != null <==> HasServer())
      modifies `clientList, client, server, buffer, buffer.cash.created
      ensures Valid() && Wf(old(Ends()).b, old(buffer.cash.State()))
      ensures closed <==> UserMustClose(old(Ends()).b, old(buffer.cash.State()))
      ensures (Ends(), buffer.cash.State()) ==
        if closed then DeleteUser(old(Ends()), old(buffer.cash.State()))
        else
          (if old(buffer.statusHttpServer).EndWork? then LookAt(old(Ends()), old(buffer.cash.State())) else old(Ends()),
           old(buffer.cash.State()))
      ensures !closed ==> client.live && (client.pair != null <==> HasServer())
    {
      hide CashImpl.State, CashImpl.Valid, CashImpl.Has, Cache.Wf, Wf, BufferImpl.State, BufferImpl.Valid,
        DeleteUser, RefreshReady, Listed;
      buffer.ValidIsWf();
      buffer.Flags();
      if client.buffer.statusClient.EndWork? {
        var next := DeleteClient(client);
        return true;
      }
      if client.buffer.statusHttpServer.EndWork? {
        RefreshedOnce(buffer.State(), buffer.cash.State());
        var ready := TestReady(client);
        if !ready {
          var next := DeleteClient(client);
          return true;
        }
      }
      return false;
    }

    /** Lines 152-170 for the user's endpoint. */
    method DrainToClient(outcome: int)
      requires Valid() && client.live && (client.pair != null <==> HasServer()) && buffer.isReadyToSend
      modifies `clientList, client, server, buffer, buffer.cash.created
      ensures Valid()
      ensures Wf(old(Ends()).b, old(buffer.cash.State()))
      ensures (Ends(), buffer.cash.State())
        == FinishIfClosed(DrainToUser(old(Ends()), old(buffer.cash.State()), Taken(outcome)), old(buffer.cash.State()))
    {
      hide CashImpl.State, CashImpl.Valid, CashImpl.Has, Cache.Wf, Wf, BufferImpl.State, BufferImpl.Valid,
        DeleteUser, BufferSpec.SendBuf, BufferSpec.ProofSend, RefreshReady, Listed;
      buffer.ValidIsWf();
      buffer.Flags();
      ghost var k, c := Ends(), buffer.cash.State();
      ReadyStays(k.b, c);
      Drain(client, outcome);
      assert Ends() == DrainToUser(k, c, Taken(outcome));
      buffer.Flags();
      buffer.ValidIsWf();
      RefreshedOnce(buffer.State(), c);
      if client.buffer.statusHttpServer.EndWork? {
        var ready := TestReady(client);
        if !ready {
          var next := DeleteClient(client);
        }
      }
    }

    /** Lines 152-154. What became of the write is not looked at. */
    method Drain(endpoint: ClientImpl, outcome: int)
      requires Valid() && endpoint.live && endpoint.buffer == buffer && buffer.live
      modifies endpoint`written, endpoint`log, buffer
      ensures Valid() && Wf(old(buffer.State()), buffer.cash.State())
      ensures var b, c := old(buffer.State()), buffer.cash.State();
        var chunk := BufferSpec.SendBuf(b, c, "");
        && (!b.isDataGetCash ==> |chunk| <= |b.buf|)
        && buffer.State() == BufferSpec.ProofSend(b, c, chunk)
        && endpoint.Sent() == Written(old(endpoint.Sent()), chunk, Taken(outcome))
        && endpoint.log == old(endpoint.log).(counted := old(endpoint.log).counted + chunk, cuts := endpoint.log.cuts)
      ensures buffer.live
    {
      hide CashImpl.State, CashImpl.Valid, CashImpl.Has, Cache.Wf, Wf, BufferImpl.State, BufferImpl.Valid,
        BufferSpec.SendBuf, BufferSpec.ProofSend;
      buffer.Flags();
      buffer.ValidIsWf();
      var chunk := endpoint.buffer.SendBuf("");
      ChunkFits(buffer.State(), buffer.cash.State());
      endpoint.Drained(chunk, outcome);
      endpoint.buffer.ProofSend(chunk);
      buffer.Flags();
      buffer.ValidIsWf();
    }

    /** One pass of the loop in `handlingEvent` over the user's endpoint. The result tells that the
        client has become a cache reader or that the thread ends. Only a second origin beside one that is
        still attached is excluded: the source has room for two endpoints in its poll set. */
    method HandleUser(e: Event) returns (done: bool)
      requires Valid() && Steady() && client.live && Wf(Ends().b, buffer.cash.State())
      requires !PassAsksAgain(buffer.cash.hasher, Ends(), buffer.cash.State(), e)
      modifies `clientList, `server, client, server, buffer, buffer.cash, buffer.cash.created
      ensures Valid()
      ensures var (k, c) := ServeUser(buffer.cash.hasher, old(Ends()), old(buffer.cash.State()), e);
        Ends() == k.(reader := NoReader) && buffer.cash.State() == c
      ensures done <==> EndsLoop(buffer.cash.hasher, old(Ends()), old(buffer.cash.State()), e)
    {
      hide CashImpl.State, CashImpl.Valid, CashImpl.Has, Cache.Wf, Wf, BufferImpl.State, BufferImpl.Valid,
        DeleteUser, UserRules, UserRead, Listed, PassAsksAgain;
      buffer.ValidIsWf();
      buffer.Flags();
      ghost var k, c := Ends(), buffer.cash.State();
      UserGoes(k, c);
      done := false;
      if e.HungUp? || (e.Received? && e.chunk == "") {
        var next := DeleteClient(client);
      } else if e.Received? {
        done := HandleUserChunk(e.chunk, e.connected);
      } else if !e.ReadFailed? {
        RulesKeepReader(k, c, if e.Writable? then Some(e.outcome) else None);
        ApplyUserRules(if e.Writable? then Some(e.outcome) else None);
      }
    }

    /** The part of a pass in which the user has sent something. */
    method HandleUserChunk(chunk: string, connected: bool) returns (done: bool)
      requires Valid() && Steady() && client.live && chunk != "" && Wf(Ends().b, buffer.cash.State())
      requires !PassAsksAgain(buffer.cash.hasher, Ends(), buffer.cash.State(), Received(chunk, connected))
      modifies `clientList, `server, client, server, buffer, buffer.cash, buffer.cash.created
      ensures Valid()
      ensures var e := Received(chunk, connected);
        var (k, c) := ServeUser(buffer.cash.hasher, old(Ends()), old(buffer.cash.State()), e);
        && Ends() == k.(reader := NoReader) && buffer.cash.State() == c
        && (done <==> EndsLoop(buffer.cash.hasher, old(Ends()), old(buffer.cash.State()), e))
    {
      hide CashImpl.State, CashImpl.Valid, CashImpl.Has, Cache.Wf, Wf, BufferImpl.State, BufferImpl.Valid,
        UserRules, UserRead, ServeUser, EndsLoop, Listed, PassAsksAgain, SteadyConn, Linked;
      CashIsValid();
      ServeUserChunk(buffer.cash.hasher, Ends(), buffer.cash.State(), chunk, connected);
      done := ReadFromUser(chunk, connected);
      CashIsValid();
      if !done {
        ApplyUserRules(None);
        CashIsValid();
      }
    }

    /** One pass of the loop in `handlingEvent` over the origin's endpoint. */
    method HandleOrigin(endpoint: ClientImpl, e: Event)
      requires Valid() && Steady() && endpoint == server && HasServer() && Wf(Ends().b, buffer.cash.State())
      requires !PassAsksAgain(buffer.cash.hasher, Ends(), buffer.cash.State(), e)
      modifies `clientList, client, server, buffer, buffer.cash, buffer.cash.created
      ensures Valid()
      ensures (Ends(), buffer.cash.State())
        == ServeOrigin(buffer.cash.hasher, old(Ends()), old(buffer.cash.State()), e)
    {
      hide CashImpl.State, CashImpl.Valid, CashImpl.Has, Cache.Wf, Wf, BufferImpl.State, BufferImpl.Valid,
        DeleteServer, OriginRules, ServerRead, Listed, PassAsksAgain;
      buffer.ValidIsWf();
      buffer.Flags();
      ghost var k, c := Ends(), buffer.cash.State();
      if e.HungUp? || (e.Received? && e.chunk == "") {
        var next := DeleteClient(endpoint);
      } else if e.Received? {
        var done := ReadFromOrigin(endpoint, e.chunk, e.connected);
        ServerReadKeepsWf(buffer.cash.hasher, k, c, e.chunk, e.connected);
        if !done {
          ApplyOriginRules(endpoint, None);
        }
      } else if !e.ReadFailed? {
        ApplyOriginRules(endpoint, if e.Writable? then Some(e.outcome) else None);
      }
    }

    /** The closing rules and the drain for the origin's endpoint (lines 119-163). */
    method ApplyOriginRules(endpoint: ClientImpl, writable: Option<int>)
      requires Valid() && endpoint == server && HasServer()
      modifies `clientList, client, server, buffer, buffer.cash.created
      ensures Valid()
      ensures Wf(old(Ends()).b, old(buffer.cash.State()))
      ensures (Ends(), buffer.cash.State()) == OriginRules(old(Ends()), old(buffer.cash.State()), writable)
    {
      hide CashImpl.State, CashImpl.Valid, CashImpl.Has, Cache.Wf, Wf, BufferImpl.State, BufferImpl.Valid,
        DeleteServer, BufferSpec.SendBuf, BufferSpec.ProofSend, RefreshReady, Listed;
      buffer.ValidIsWf();
      buffer.Flags();
      ghost var k, c := Ends(), buffer.cash.State();
      var b := endpoint.buffer;
      if (b.statusClient.EndWork? && !b.isAddDataToCash) || b.statusHttpServer.EndWork?
        || (b.statusClient.EndWork? && b.isEndSend)
      {
        var next := DeleteClient(endpoint);
      } else if writable.Some? {
        RefreshedOnce(k.b, c);
        var ready := TestReady(endpoint);
        buffer.Flags();
        if ready && b.statusHttpServer.ReadRequest? {
          Drain(endpoint, writable.value);
        }
      }
    }

    /** `deleteClient`: deletes the endpoint and takes it out of the list; `next` is the position of
        the endpoint that followed it. */
    method DeleteClient(endpoint: ClientImpl) returns (next: nat)
      requires Valid() && endpoint.live && (endpoint == client || endpoint == server)
      requires endpoint.isUser ==> (client.pair != null <==> HasServer())
      modifies `clientList, client`pair, client`buffer, client`live, Origin()`listHandlingEvent, Origin()`buffer,
        Origin()`live, buffer, buffer.cash.created
      ensures Valid() && !endpoint.live && next == if endpoint.isUser then |clientList| else 0
      ensures Wf(old(Ends()).b, old(buffer.cash.State()))
      ensures (Ends(), buffer.cash.State())
        == if endpoint.isUser then DeleteUser(old(Ends()), old(buffer.cash.State()))
           else DeleteServer(old(Ends()), old(buffer.cash.State()))
      ensures !endpoint.isUser ==> client.live == old(client.live)
      decreases endpoint.isUser, 1, 0
    {
      hide CashImpl.State, CashImpl.Valid, CashImpl.Has, Cache.Wf, Wf, BufferImpl.State, BufferImpl.Valid,
        LeftByOrigin, LeftByReader, Ends, DeleteUser, DeleteServer;
      buffer.ValidIsWf();
      if endpoint.isUser {
        DeleteClientUser(endpoint);
      } else {
        DeleteClientServer(endpoint);
      }
      next := IndexOf(clientList, endpoint);
      clientList := clientList[..next] + clientList[next + 1..];
    }

    method DeleteClientUser(endpoint: ClientImpl)
      requires Valid() && endpoint == client && client.live
      requires client.pair != null <==> HasServer()
      modifies `clientList, client`pair, client`buffer, client`live, Origin()`listHandlingEvent, Origin()`buffer,
        Origin()`live, buffer, buffer.cash.created
      ensures Linked() && !client.live
      ensures clientList == (if HasServer() then [server] else []) + [client]
      ensures Wf(old(Ends()).b, old(buffer.cash.State()))
      ensures (Ends(), buffer.cash.State()) == DeleteUser(old(Ends()), old(buffer.cash.State()))
      decreases endpoint.isUser, 0, 2
    {
      hide CashImpl.State, CashImpl.Valid, CashImpl.Has, Cache.Wf, Wf, BufferImpl.State, BufferImpl.Valid,
        LeftByOrigin, LeftByReader, DeletePair, ReleaseBuffer;
      buffer.ValidIsWf();
      DropPair(endpoint);
      Release(endpoint);
    }

    /** Lines 193-204. */
    method DropPair(endpoint: ClientImpl)
      requires Valid() && endpoint == client && client.live
      requires client.pair != null <==> HasServer()
      modifies `clientList, client`pair, client`buffer, client`live, Origin()`listHandlingEvent, Origin()`buffer,
        Origin()`live, buffer, buffer.cash.created
      ensures Valid() && client.live && Wf(old(Ends()).b, old(buffer.cash.State()))
      ensures HasServer() ==> server.listHandlingEvent == []
      ensures (Ends(), buffer.cash.State()) == DeletePair(old(Ends()), old(buffer.cash.State()))
      decreases endpoint.isUser, 0, 1
    {
      hide CashImpl.State, CashImpl.Valid, CashImpl.Has, Cache.Wf, Wf, BufferImpl.State, BufferImpl.Valid,
        LeftByOrigin, LeftByReader;
      buffer.ValidIsWf();
      buffer.Flags();
      if endpoint.pair != null {
        endpoint.pair.EraseIt(endpoint);
        if endpoint.buffer != null && !endpoint.buffer.isAddDataToCash {
          DeletePairServer(endpoint);
        }
      }
    }

    /** Lines 198-201: the pair is looked for in the list while the list is edited. */
    method DeletePairServer(endpoint: ClientImpl)
      requires Valid() && endpoint == client && client.live
      requires HasServer() && client.pair == server && server.listHandlingEvent == []
      modifies `clientList, client`pair, client`buffer, client`live, Origin()`listHandlingEvent, Origin()`buffer,
        Origin()`live, buffer, buffer.cash.created
      ensures Valid() && client.live && !HasServer() && Wf(old(Ends()).b, old(buffer.cash.State()))
      ensures (Ends(), buffer.cash.State()) == DeleteServer(old(Ends()), old(buffer.cash.State()))
      decreases endpoint.isUser, 0, 0
    {
      hide CashImpl.State, CashImpl.Valid, CashImpl.Has, Cache.Wf, Wf, BufferImpl.State, BufferImpl.Valid,
        LeftByOrigin, LeftByReader, DeleteServer;
      buffer.ValidIsWf();
      ghost var ends, c := Ends(), buffer.cash.State();
      var it := 0;
      while it < |clientList|
        invariant it <= |clientList|
        invariant HasServer() ==> it == 0 && Valid()
        invariant HasServer() ==> unchanged(`clientList, client, server, buffer, buffer.cash.created)
        invariant !HasServer() ==> Valid() && client.live && it == 1
        invariant !HasServer() ==> (Ends(), buffer.cash.State()) == DeleteServer(ends, c)
        decreases |clientList| - it
      {
        if clientList[it] == endpoint.pair {
          it := DeleteClient(clientList[it]);
        }
        it := it + 1;
      }
    }

    /** Lines 206-217. */
    method Release(endpoint: ClientImpl)
      requires Valid() && endpoint == client && client.live
      requires HasServer() ==> server.listHandlingEvent == []
      modifies client`buffer, client`live, buffer, buffer.cash.created
      ensures Linked() && !client.live
      ensures Wf(old(Ends()).b, old(buffer.cash.State()))
      ensures (Ends(), buffer.cash.State()) == ReleaseBuffer(old(Ends()), old(buffer.cash.State()))
    {
      hide CashImpl.State, CashImpl.Valid, CashImpl.Has, Cache.Wf, Wf, BufferImpl.State, BufferImpl.Valid,
        LeftByOrigin, LeftByReader;
      buffer.ValidIsWf();
      buffer.Flags();
      LeaveReaders(endpoint.buffer);
      CloseUserEnd(endpoint);
      endpoint.live := false;
    }

    method CloseUserEnd(endpoint: ClientImpl)
      requires Valid() && endpoint == client && client.live
      modifies client`buffer, buffer`statusClient, buffer`isClientConnect, buffer`live
      ensures buffer.State() == old(buffer.State()).(statusClient := EndWork, isClientConnect := false)
      ensures !buffer.isClientConnect && buffer.live == buffer.isServerConnect && (buffer.live ==> buffer.Valid())
    {
      hide CashImpl.State, CashImpl.Valid, CashImpl.Has, Cache.Wf, Wf, BufferImpl.State, BufferImpl.Valid,
        LeftByOrigin, LeftByReader;
      if endpoint.buffer != null {
        endpoint.buffer.CloseClient();
        if !endpoint.buffer.isServerConnect {
          endpoint.buffer.Delete();
          endpoint.buffer := null;
        }
      }
    }

    method LeaveReaders(buffer: BufferImpl)
      requires buffer.Valid()
      modifies buffer.cash.created`countConnectedUsers
      ensures buffer.Valid() && Wf(buffer.State(), old(buffer.cash.State()))
      ensures buffer.cash.State() == LeftByReader(buffer.State(), old(buffer.cash.State()))
    {
      buffer.ValidIsWf();
      if buffer.isDataGetCash {
        buffer.cash.DiscountUser(buffer.cashElement);
      }
    }

    method DeleteClientServer(endpoint: ClientImpl)
      requires Valid() && endpoint == server && HasServer()
      modifies client`pair, Origin()`buffer, Origin()`live, buffer, buffer.cash.created
      ensures Linked() && !HasServer() && clientList == old(clientList) && client.live == old(client.live)
      ensures Wf(old(Ends()).b, old(buffer.cash.State()))
      ensures (Ends(), buffer.cash.State()) == DeleteServer(old(Ends()), old(buffer.cash.State()))
      decreases endpoint.isUser, 0, 0
    {
      hide CashImpl.State, CashImpl.Valid, CashImpl.Has, Cache.Wf, Wf, BufferImpl.State, BufferImpl.Valid,
        LeftByOrigin, LeftByReader, Listed;
      buffer.ValidIsWf();
      buffer.Flags();
      ForgetPairs(endpoint);
      CloseOrigin(endpoint);
    }

    method CloseOrigin(endpoint: ClientImpl)
      requires Valid() && endpoint == server && HasServer()
      modifies Origin()`buffer, Origin()`live, buffer, buffer.cash.created
      ensures Linked() && !HasServer()
      ensures buffer.State() == old(buffer.State()).(statusHttpServer := EndWork, isServerConnect := false)
      ensures buffer.live == buffer.isClientConnect
      ensures Wf(old(buffer.State()), old(buffer.cash.State()))
      ensures buffer.cash.State() == LeftByOrigin(old(buffer.State()), old(buffer.cash.State()))
    {
      hide CashImpl.State, CashImpl.Valid, CashImpl.Has, Cache.Wf, Wf, BufferImpl.State, BufferImpl.Valid,
        LeftByOrigin, LeftByReader;
      buffer.ValidIsWf();
      buffer.Flags();
      LeaveElement(endpoint.buffer);
      CloseServerEnd(endpoint);
      endpoint.live := false;
    }

    method CloseServerEnd(endpoint: ClientImpl)
      requires endpoint.live && endpoint.buffer == buffer && buffer.Valid()
      modifies endpoint`buffer, buffer`statusHttpServer, buffer`isServerConnect, buffer`live
      ensures buffer.State() == old(buffer.State()).(statusHttpServer := EndWork, isServerConnect := false)
      ensures !buffer.isServerConnect && buffer.live == buffer.isClientConnect && (buffer.live ==> buffer.Valid())
    {
      hide CashImpl.State, CashImpl.Valid, CashImpl.Has, Cache.Wf, Wf, BufferImpl.State, BufferImpl.Valid,
        LeftByOrigin, LeftByReader;
      if endpoint.buffer != null {
        endpoint.buffer.CloseServer();
        if !endpoint.buffer.isClientConnect {
          endpoint.buffer.Delete();
          endpoint.buffer := null;
        }
      }
    }

    /** Lines 221-225. */
    method ForgetPairs(endpoint: ClientImpl)
      requires Valid() && endpoint == server && HasServer()
      modifies client`pair
      ensures Valid()
      ensures Ends() == old(Ends()).(userHasPair := old(Ends()).userHasPair && !old(Ends()).serverKnowsUser)
    {
      hide CashImpl.State, CashImpl.Valid, CashImpl.Has, Cache.Wf, Wf, BufferImpl.State, BufferImpl.Valid;
      var i := 0;
      while i < |endpoint.listHandlingEvent|
        invariant i <= |endpoint.listHandlingEvent|
        invariant client.pair == if i > 0 then null else old(client.pair)
      {
        endpoint.listHandlingEvent[i].pair := null;
        i := i + 1;
      }
    }

    /** Lines 227-229. */
    method LeaveElement(buffer: BufferImpl)
      requires buffer.Valid()
      modifies buffer.cash.created`isServerConnected
      ensures buffer.Valid() && Wf(buffer.State(), old(buffer.cash.State()))
      ensures buffer.cash.State() == LeftByOrigin(buffer.State(), old(buffer.cash.State()))
    {
      buffer.ValidIsWf();
      if buffer.isAddDataToCash {
        buffer.cash.SetServerConnectOf(buffer.cashElement, false);
      }
    }

    /** The send loop of a cache reader. It ends, and unless a write fails it leaves nothing of the
        element's present content uncounted. `wrote` is the number of bytes it has counted as sent, and
        `wire` what the socket took of them: all of it exactly if no write was cut short. */
    method SendAll() returns (result: int, ghost wrote: nat, ghost wire: Wire)
      requires Valid() && client.live && buffer.isDataGetCash
      requires CanRead(buffer.State(), buffer.cashElement.State())
      modifies client`written, buffer
      ensures Valid() && client.live && buffer.cashElement == old(buffer.cashElement) && buffer.cashElement != null
      ensures result == SUCCESS || result == FAILURE
      ensures var e, at := buffer.cashElement.State(), old(buffer.countByteReadFromCash);
        && at + wrote <= |e.content|
        && client.written == old(client.written) + wire.sent
        && Delivered(e.content[at..at + wrote], wire)
        && (result == SUCCESS <==> at + wrote == |e.content|)
        && buffer.State() == AfterWrites(old(buffer.State()), e, wrote)
    {
      hide CashImpl.State, CashImpl.Valid, CashImpl.Has, Cache.Wf, Wf, BufferImpl.State, BufferImpl.Valid, AfterWrites,
        BufferSpec.SendBuf, BufferSpec.ProofSend, RefreshReady, Listed, Delivered, Written;
      buffer.Flags();
      buffer.ValidIsWf();
      buffer.cash.StateOf(buffer.cashElement);
      ghost var was, c, e := buffer.State(), buffer.cash.State(), buffer.cashElement.State();
      ghost var before, at := client.written, buffer.countByteReadFromCash;
      AfterNoWrite(was, c);
      NothingYet(e.content, at);
      wrote, wire := 0, SILENT;
      var ready := TestReady(client);
      while ready
        invariant Valid() && client.live && buffer.isDataGetCash && buffer.cashElement == old(buffer.cashElement)
        invariant at + wrote <= |e.content| && client.written == before + wire.sent
        invariant Delivered(e.content[at..at + wrote], wire)
        invariant buffer.State() == AfterWrites(was, e, wrote) && ready == (at + wrote < |e.content|)
        decreases |e.content| - wrote
      {
        AfterOneMoreWrite(was, c, wrote);
        var outcome: int := *;
        ghost var soFar := client.written;
        var code, chunk := SendChunk(outcome);
        if code < 0 {
          return FAILURE, wrote, wire;
        }
        ready := TestReady(client);
        ContinuesAt(before, soFar, e.content, at, wrote, chunk, wire, outcome);
        wrote, wire := wrote + |chunk|, Written(wire, chunk, outcome);
      }
      return SUCCESS, wrote, wire;
    }

    method TestReady(endpoint: ClientImpl) returns (ready: bool)
      requires Valid() && endpoint.live && endpoint.buffer == buffer && buffer.live
      modifies buffer`isReadyToSend
      ensures Valid() && Wf(old(buffer.State()), buffer.cash.State())
      ensures buffer.State() == RefreshReady(old(buffer.State()), buffer.cash.State())
      ensures ready == buffer.State().isReadyToSend
    {
      hide CashImpl.State, CashImpl.Valid, CashImpl.Has, Cache.Wf, Wf, BufferImpl.State, BufferImpl.Valid, RefreshReady;
      buffer.ValidIsWf();
      ready := endpoint.buffer.IsReadyToSend();
      buffer.ValidIsWf();
    }

    /** Lines 333-339: one round of the loop. Only a negative code is noticed. */
    method SendChunk(outcome: int) returns (code: int, chunk: string)
      requires Valid() && client.live && buffer.isDataGetCash
      modifies client`written, buffer
      ensures Valid() && buffer.live && Wf(old(buffer.State()), old(buffer.cash.State()))
      ensures chunk == BufferSpec.SendBuf(old(buffer.State()), buffer.cash.State(), "")
      ensures code < 0 <==> outcome < 0
      ensures client.written
        == if code < 0 then old(client.written) else old(client.written) + chunk[..Min(outcome, |chunk|)]
      ensures buffer.State() == if code < 0 then old(buffer.State())
        else BufferSpec.ProofSend(old(buffer.State()), buffer.cash.State(), chunk)
      ensures buffer.isDataGetCash && buffer.cashElement == old(buffer.cashElement)
    {
      hide CashImpl.State, CashImpl.Valid, CashImpl.Has, Cache.Wf, Wf, BufferImpl.State, BufferImpl.Valid,
        BufferSpec.SendBuf, BufferSpec.ProofSend;
      buffer.Flags();
      buffer.ValidIsWf();
      chunk := client.buffer.SendBuf("");
      code := client.SendBuf(chunk, outcome);
      if code >= 0 {
        client.buffer.ProofSend(chunk);
        buffer.Flags();
        buffer.ValidIsWf();
      } else {
        assert old(client.written) + chunk[..0] == old(client.written);
      }
    }
  }

  lemma NothingYet(content: string, at: nat)
    requires at <= |content|
    ensures Delivered(content[at..at + 0], SILENT)
  {
  }

  lemma ContinuesAt(before: string, written: string, content: string, at: nat, wrote: nat, chunk: string, wire: Wire,
                    taken: nat)
    requires at + wrote + |chunk| <= |content| && chunk == content[at + wrote..at + wrote + |chunk|]
    requires written == before + wire.sent && Delivered(content[at..at + wrote], wire)
    ensures written + chunk[..Min(taken, |chunk|)] == before + Written(wire, chunk, taken).sent
    ensures Delivered(content[at..at + (wrote + |chunk|)], Written(wire, chunk, taken))
  {
    assert content[at..at + wrote] + chunk == content[at..at + (wrote + |chunk|)];
    WriteDelivers(content[at..at + wrote], wire, chunk, taken);
    hide Delivered;
  }
}
