# Verified models of the caching proxy and its companions

The proxy of `lab32v2` serves each client in a thread of its own. A client's request and the origin's
response share one byte buffer, a two-sided state machine; a cacheable response is copied into a
cache element while it is relayed, and other clients read that element while it is still growing.
Around it the repository has smaller programs whose point is one argument each: two turn-taking
protocols (`lab11`, `lab14`), a sum split over threads (`lab8`) and a byte string that manages its
own capacity (`lab31/v2/binaryString`).

The model has two layers. Functions on values say what each operation does; a transition system
built from them interleaves any number of connections, and two invariants, one of the whole system
and one of each connection, carry the main theorems. Classes with the source's fields, lists and
loops are proved, method by method, against those functions, up to one pass of the handler over an
endpoint, with the bytes read, counted and taken by the sockets; each pass is proved to be a sequence
of actions of the transition system.

| files | content |
|---|---|
| `Parser.dfy` | searches and classification of headings |
| `CacheSpec.dfy`, `CashObjects.dfy` | the cache: functions and invariant, and the classes |
| `BufferSpec.dfy`, `BufferObjects.dfy` | the relay buffer: functions, and the class |
| `ProxySystem.dfy` | connections, teardown, cache readers, actions, histories and turns |
| `HandlerSpec.dfy`, `HandlerObjects.dfy`, `HandlerTheorems.dfy`, `Passes.dfy` | one pass of the handler: functions, the classes with teardown and the send loop, what a pass may rely on, and what it does to bytes and endpoints |
| `ProxyInvariant.dfy`, `ProxyRoles.dfy`, `ProxySteps.dfy`, `ProxyHistories.dfy` | the invariants; what any action keeps; what an action in turn keeps; both over histories, connection by connection |
| `ProxyOrder.dfy`, `Ownership.dfy`, `Agreement.dfy`, `Creation.dfy`, `Deliveries.dfy` | chunks out of turn and writes cut short: what they break, and exactly when |
| `ProxyTheorems.dfy`, `ReaderProgress.dfy`, `RelayTheorems.dfy`, `CacheTheorems.dfy`, `Eviction.dfy`, `Headings.dfy` | the main results about readers, relays, the cache, what it evicts and what is cached for whom |
| `Visits.dfy`, `Incidents.dfy` | concrete histories in which the proxy does not do what it is for |
| `Alternation.dfy`, `ThreeMutexes.dfy`, `TwoSemaphores.dfy` | the turn-taking machine and its two implementations |
| `PartialSums.dfy` | the split sum |
| `BinaryStrings.dfy` | the capacity-managed byte string |
| `Wrappers.dfy` | `Option` |

`dafny verify dfyconfig.toml` checks the whole project.

## Histories and turns

A *history* is any interleaving of any number of connections in which peers send any chunk at any
time, hang up at any time, and sockets take as much or as little of each write as they like. A chunk
comes *in turn* unless an origin sends it while its request is still being relayed, or a client sends
it once its request has been relayed or makes the heading of a GET be parsed a second time with it
(unless that only makes the handler look for another origin in vain). The handler has no guard
against either (`lab32v2/server/HandlerOneClientImpl.cpp:67-117`); the condition is read off the
buffer before the chunk is handled (`ProxySystem.InTurn`).

Connections are isolated from each other's manners: a connection keeps its invariant throughout a
history if and only if its *own* chunks come in turn, whatever is sent on the others
(`ProxyHistories.ConnIsSafeIffOwnInTurn`). So the results about relays and readers ask this of the
connection they are about, and of the writer of an element where they speak of the element's origin,
and of nobody else. The following hold in every history, whatever anybody sends:

- the results about the cache: its budget, its list as a map, the user counts, elements pinned by their
  readers and growing only (`CacheTheorems`, `ProxyTheorems.HistoryGrows`), one writer for each
  element, good pointers, hits on the same request (`ProxyHistories`, `Headings`);
- what sockets take of what is counted (`Deliveries`), and single passes of the handler.

Two results have exact conditions of their own, weaker than being in turn. A buffer is owned properly,
and freed once, exactly as long as no chunk puts a second origin on it beside one that is still there
(`Ownership.OwnedIffOneOrigin`); an origin may be replaced (`Incidents.ReplacedOrigin`). A cached element
that agreed with its origin once agrees with it exactly as long as no chunk of its client's joins it
(`Agreement.AgreesIffNothingJoined`); if the origin had not spoken before its turn, that is from the
element's creation on exactly as long as the client is silent while heading and body arrive
(`Creation.AgreesIffClientSilent`). Being in turn is not enough for a lossless relay, which loses bytes
exactly if a drain is cut short (`RelayTheorems.RelayIsLosslessIff`).

## Assumptions

- A socket is a sequence of chunks. A `read` returns 1 to BUF_SIZE - 1 bytes, or reports the end. A
  `write` fails or takes any number of the bytes it is given.
- One call of `readFromSocket` is one atomic step of the transition system, and so is one statement
  of the reader loop. The source publishes a new element before it marks its origin connected
  (`lab32v2/buffer/BufferImpl.cpp:74-80`) and looks up and fetches a hit under separate locks (lines
  32-35); both are taken as one step.
- `byteInCash` has no initialiser (`lab32v2/cash/CashImpl.h:29`); it starts at zero.
- The eviction loop steps its iterator after `erase` (`lab32v2/cash/CashImpl.cpp:53-57`), so it skips
  the element after each victim. The model skips it too; where the source would step past the end,
  because the last element was erased, the model's walk stops.
- The hash is any function. Only the last clause of `HitsTheSameRequest` assumes it injective, and
  `Incidents.RoomMissed` that it tells three request headings apart.
- Integers are unbounded. `atoi` of an announced length is the value of its digits, however many.
- An evicted element is unlinked, not freed: its writer may go on appending to it, as in the source.

## Where the code is not what it may seem

- An origin that speaks too early is taken for the client. During a body its bytes are counted as
  request bytes and sent back to it (`EarlyAnswerGoesBack`, `Incidents.EarlyByteAfterPost`); before a
  GET has been sent on they attach a second origin to the buffer, which is freed under the second once
  the first and the client have gone (`EarlyAnswerConnectsTwice`, `Incidents.EarlyByteAfterGet`).
- A client that sends while its response is being cached is taken for the origin. During the body its
  bytes become part of the cached element, are counted against the announced length and may complete
  the download, so later clients are sent them as the origin's (`Agreement.LateByteJoinsElement`,
  `Incidents.LateByteIntoCache`).
- The handler does not look at what a drain's `write` returned, and a reader notices only a negative
  code. Bytes of a write that is cut short are lost, and the relay goes on (`RelayIsLosslessIff`,
  `Incidents.FailedDrain`).
- An origin that sends more than it announced makes its element outgrow its reservation, and the
  budget no longer covers it (`BudgetIsReal`, `SurplusIff`, `Incidents.Surplus`).
- Stepping over the neighbour of each victim can make the cache refuse an element for which there is
  room (`AddRefusesIff`, `RoomIsMissedIff`, `Incidents.RoomMissed`).
- The additional iterations of `lab8` widen a range without shifting the ranges after it, so its
  split is a tiling only if the number of threads divides the number of steps. `DeviationBounds` gives
  the exact condition for a correct sum and a bound for the error otherwise.
- `subBinaryString` records the capacity of its result in the wrong object, and assigning a string to
  itself loses its bytes. `BinaryStrings` states what is kept nevertheless.

## Model

| member | source | states |
|---|---|---|
| `ProxyTheorems.CacheAgreesWithOrigin` | lab32v2/buffer/BufferImpl.cpp:66-135 | in every history each element ever cached has exactly one writer; if that one connection's chunks have come in turn, whatever is sent on all others, the element holds exactly the response bytes the writer has received, under the writer's request heading, and its two flags say whether the origin is connected and whether heading and announced body are complete; Agreement.AgreesSinceCachedIff says exactly how long the content agrees when the client does not keep its turn |
| `Agreement.AgreesSinceCachedIff` | lab32v2/buffer/BufferImpl.cpp:10-25 | over histories: if a connection was in turn until its response began to be cached, its element holds exactly what its origin has sent at any later time iff no chunk of its client's has reached the element since, whatever anybody else sends |
| `Agreement.AgreesIffNothingJoined` | lab32v2/buffer/BufferImpl.cpp:111-135 | the same from any state of any history in which the element and the origin agree, in turn or not |
| `Creation.AgreesIffClientSilent` | lab32v2/buffer/BufferImpl.cpp:66-84 | in every history: if a connection awaits the heading of a response with nothing in its buffer but what the origin has sent, the element it may cache later agrees with its origin, from its creation on, iff the client has since sent nothing while the heading or the cached body was arriving, whatever anybody else sends |
| `Creation.TurnsEmpty` | lab32v2/buffer/BufferImpl.cpp:193-206 | a connection comes to await a heading with the drain that empties its buffer, so the buffer then holds what the origin has sent iff the origin has not spoken before |
| `Creation.CreatedAgreesIff` | lab32v2/buffer/BufferImpl.cpp:66-84 | in turn or not, an element is created only by the chunk that completes a response heading, begins with all that is in the buffer then, and agrees with its origin iff the rest of the buffer is what the origin had sent before (for a chunk of the client's: iff the whole of it is) |
| `Agreement.LateByteJoinsElement` | lab32v2/buffer/BufferImpl.cpp:10-25 | a chunk of the client's while its response is being cached ends the agreement iff the origin's side is in the body; it is appended to the element, counted against the announced length and may complete the download, and the origin's bytes stay what they were |
| `ProxyTheorems.ReaderGetsPrefix` | lab32v2/server/HandlerOneClientImpl.cpp:252-342 | if a reader's own chunks have come in turn, what it has counted as sent is a prefix of its element, hence of what the origin of the element sent if the element's writer is in turn; it has been sent all of that iff no write of it was cut short; nobody else has to be in turn |
| `ProxyTheorems.CleanReaderGotEverything` | lab32v2/server/HandlerOneClientImpl.cpp:263-281 | a reader in turn that leaves after neither a failed wait nor a failed write has counted everything the element holds, then and in every later state of the history, and has been sent it iff no write took less than it was given; if the element's writer is in turn, it is the whole announced response iff the download had ended |
| `Headings.HitsTheSameRequest` | lab32v2/buffer/BufferImpl.cpp:32-39 | in every history, in turn or not: a reader's element is cached by exactly one connection and under that connection's request heading, whose hash is that of the reader's heading; if the hash does not collide, the two headings are equal |
| `ProxyTheorems.HistoryGrows` | lab32v2/cash/CashElementImpl.cpp:117-129 | along every history, in turn or not, an element keeps its identity, only gains bytes, and gains none after its origin has left |
| `ProxyTheorems.ReaderStepsAreBounded` | lab32v2/server/HandlerOneClientImpl.cpp:265-281 | over whole histories: a connection that became a reader in turn takes, after its element's origin has left, no more steps than its position allows, whatever waits and writes return and whatever is sent on other connections before and after |
| `ProxyTheorems.ReaderStaysInTurn` | lab32v2/server/HandlerOneClientImpl.cpp:79-84 | from the chunk on that makes a connection a cache reader, whether its element's origin has left or not, none of its own peers gets another chunk in before it is gone; so being in turn until then is being in turn for good |
| `ProxyTheorems.ReaderLeaves` | lab32v2/server/HandlerOneClientImpl.cpp:265-281 | after its origin has left, a reader has left the loop after at most four steps a byte and ten more, and until then it can always take another step; that it is sent what there is while the origin is connected is ReaderProgress.ReaderCatchesUp |
| `ReaderProgress.ReaderCatchesUp` | lab32v2/server/HandlerOneClientImpl.cpp:264-281 | over histories, from any state in which a connection that became a reader in turn is in its loop, the origin connected or not: if none of its writes fails, it has counted all that the element held after three of its own steps for each byte not yet counted and four more; until then it does not leave and can take another step, and its socket has taken all of it if no write was cut short |
| `ReaderProgress.StaysWhileConnected` | lab32v2/server/HandlerOneClientImpl.cpp:265-281 | while its origin is connected and no wait or write of its fails, a reader does not leave its loop |
| `ReaderProgress.FailedWaitLeaves` | lab32v2/server/HandlerOneClientImpl.cpp:268-271 | after a failed wait with nothing unread a reader leaves within two steps, having sent nothing more |
| `ProxyTheorems.ReaderChunks` | lab32v2/buffer/BufferImpl.cpp:146-159 | a reader's write is never empty and continues what was sent with all that is unread, or BUF_SIZE - 1 bytes of it; it is counted in full, the socket takes of it what the write says, and a failed one ends the loop |
| `RelayTheorems.FramingFollowsTheBytes` | lab32v2/buffer/BufferImpl.cpp:66-135 | for a connection whose own chunks come in turn, in any history, for every way of cutting a response into chunks and interleaving drains: the heading phase ends with the byte that completes the heading, the counter of missing bytes is the length that the text of the heading announces less the body bytes received, and the end is noticed exactly when heading and body have arrived (section 6.3 of RFC 9112, Content-Length case) |
| `RelayTheorems.SameBytesSameFraming` | lab32v2/buffer/BufferImpl.cpp:111-135 | two relays that received the same bytes, in any chunks and in any two histories, agree on the missing bytes and on the end |
| `RelayTheorems.RequestIsWholeBeforeTheAnswer` | lab32v2/buffer/BufferImpl.cpp:42-64 | for a connection whose own chunks come in turn: the request is over, as the text of its heading says, with the heading if it is a GET or announces no length, else with the last byte of the announced length; and the response starts only after all of it has been counted as sent; an origin that answers early, which ends this, is the subject of ProxyOrder.EarlyAnswerGoesBack |
| `RelayTheorems.RelayIsLosslessIff` | lab32v2/buffer/BufferImpl.cpp:187-211 | for a connection whose own chunks come in turn, as long as its client is there and whatever is sent on others: bytes the origin's socket took, followed by the buffer, are the request bytes read iff no drain to the origin has been cut short, and likewise for the client and the response; only bytes after the exchange is over are not sent |
| `RelayTheorems.CountedBytesAreInOrder` | lab32v2/buffer/BufferImpl.cpp:187-211 | failed drains or not, the bytes counted as sent, followed by the buffer, are the bytes read, in both directions |
| `RelayTheorems.FailedDrainLoses` | lab32v2/server/HandlerOneClientImpl.cpp:152-154 | one client drain that fails breaks losslessness for any relay that was lossless before |
| `Deliveries.HistoryWires` | lab32v2/server/HandlerOneClientImpl.cpp:152-154 | in every history, in turn or not, a socket takes a subsequence of the bytes counted as sent to it, one byte less at least for every cut, and all of them if there was no cut |
| `Deliveries.CutsAreFailedDrains` | lab32v2/server/HandlerOneClientImpl.cpp:152-154 | the cuts noted for an endpoint are the number of drains in the history that its socket failed or took short |
| `RelayTheorems.EachSideGetsItsOwnBytes` | lab32v2/server/HandlerOneClientImpl.cpp:146-154 | for a connection whose own chunks come in turn, failed writes or not: the origin is sent only bytes of the request, in order, and the client only bytes of the response or of the error text, so neither is sent what the other should get |
| `RelayTheorems.OneDirectionAtATime` | lab32v2/server/HandlerOneClientImpl.cpp:146-150 | for a connection whose own chunks come in turn: never may both endpoints drain; the client reads while the origin's side still awaits the request only on a cache hit or a rejected heading, and then there is no origin; ProxyOrder.EarlyAnswerMeetsCache is what an early origin does to this |
| `RelayTheorems.DrainsSendSomething` | lab32v2/server/HandlerOneClientImpl.cpp:146-154 | a drain the guards allow sends at least one byte and less than BUF_SIZE |
| `RelayTheorems.StatusesMoveForward` | lab32v2/buffer/BufferImpl.cpp:27-211 | no action moves a status field of a connection that is in turn back in its phase order, neither another connection's nor an own one in turn |
| `Ownership.OwnedIffOneOrigin` | lab32v2/server/HandlerOneClientImpl.cpp:99-117 | whatever is sent and when and in whatever order endpoints leave, a connection owns its buffer properly throughout a history iff none of its own chunks makes the buffer ask for an origin that is found while another one is still attached; an origin that replaces one that has left does no harm; the condition is read off the buffer before the chunk is handled |
| `Ownership.OwnedIff` | lab32v2/server/HandlerOneClientImpl.cpp:99-117 | the same for one action of an owned connection: any chunk, drain, hang-up or reader step, in turn or not |
| `Ownership.InTurnKeepsOneOrigin` | lab32v2/server/HandlerOneClientImpl.cpp:99-110 | no chunk that comes in turn puts a second origin on a buffer |
| `Ownership.BufferFreedOnce` | lab32v2/server/HandlerOneClientImpl.cpp:191-239 | in every history, as long as no second origin has been put on it beside one that was still there, the shared buffer has been deleted iff both endpoints are gone iff both are marked disconnected, at most once; endpoints know each other exactly while both exist; nothing is possible on a freed buffer |
| `Ownership.FreedIsFinal` | lab32v2/server/HandlerOneClientImpl.cpp:212-236 | no action of anybody changes an owned connection whose buffer is freed |
| `RelayTheorems.OnlyAnnouncedGetsAreCached` | lab32v2/buffer/BufferImpl.cpp:99-130 | for a connection whose own chunks come in turn, caching is active only for a GET whose received heading is a success and announces its length |
| `Headings.OnlyGetsAreCached` | lab32v2/buffer/BufferImpl.cpp:99-130 | in every history, in turn or not, a buffer that caches has a GET and a response with announced length, so the two branches that report a possible error are unreachable |
| `RelayTheorems.CachingStartsIff` | lab32v2/buffer/BufferImpl.cpp:66-84 | what the test for cacheability amounts to: the chunk that completes a response heading starts caching iff the response successfully answers a GET, announces its length, is not too large, is not cached and is accepted by the cache |
| `RelayTheorems.ServerAloneIsCaching` | lab32v2/server/HandlerOneClientImpl.cpp:193-204 | an origin whose client has left is one whose response is being cached |
| `RelayTheorems.SurplusIff` | lab32v2/buffer/BufferImpl.cpp:114-124 | an element whose writer is in turn stays within its reservation iff the chunk is no longer than what is missing of the announced body |
| `RelayTheorems.CachingOutlivesTheClient` | lab32v2/buffer/BufferImpl.cpp:10-15 | with or without its client, each body chunk of a cached response reaches the element unchanged and completion is noticed with the last announced byte; for a client that has left nothing is kept in the buffer |
| `RelayTheorems.ClosingWaitsForTheBody` | lab32v2/server/HandlerOneClientImpl.cpp:120-143 | the closing rules close the origin of a response being cached only when the announced body is complete and, once the client has left, exactly then |
| `RelayTheorems.ClientIsNotCutShort` | lab32v2/server/HandlerOneClientImpl.cpp:124-137 | the closing rules close a relayed client in turn iff its exchange is over, or its origin is gone and nothing more is to be sent on; if the response had a complete heading, all bytes received have then been counted as sent, and its socket has taken all of them iff no drain to it was cut short |
| `CacheTheorems.BudgetIsExact` | lab32v2/cash/CashImpl.cpp:52-75 | in every state of every history, in turn or not, byteInCash is under MAX_CASH_SIZE and equals the reservations of the listed elements plus what evicted elements never gave back |
| `CacheTheorems.BudgetIsReal` | lab32v2/cash/CashImpl.cpp:38-80 | in every history, if no element outgrew its reservation: bytes held <= bytes reserved <= byteInCash < MAX_CASH_SIZE, the middle two equal iff every evicted element had filled its reservation |
| `CacheTheorems.WithinReservationIffNoSurplus` | lab32v2/buffer/BufferImpl.cpp:72-84 | in every history, if an element's writer is in turn, the element is within its reservation iff its origin sent no more than it announced |
| `CacheTheorems.CountIsNumberOfReaders` | lab32v2/cash/CashElementImpl.cpp:55-83 | the user count of an element is the number of live connections reading it, in every state of every history, in turn or not |
| `CacheTheorems.ReadElementsStay` | lab32v2/cash/CashImpl.cpp:52-62 | over every history, in turn or not, an element stays listed as long as somebody reads it |
| `CacheTheorems.FindIsLookup` | lab32v2/cash/CashImpl.cpp:10-36 | list lookup is lookup in the map from hash to listed element, both for hits and for misses |
| `CacheTheorems.HitOnlyReorders` | lab32v2/cash/CashImpl.cpp:18-29 | a hit leaves that map and the order of the others unchanged and makes its element the most recent |
| `CacheTheorems.AddExtendsTheMap` | lab32v2/cash/CashImpl.cpp:52-79 | an accepted add maps the hash to the new last element, adds no other entry, loses only entries without users, and keeps the relative order of all that stay; which are lost is Eviction.AddEvictsNoMoreThanNeeded |
| `CacheTheorems.ListIsOrderedByUse` | lab32v2/cash/CashImpl.cpp:10-36 | in every state of every history the list is strictly ordered by last touch and holds one element per hash |
| `CacheTheorems.NeighbourOfVictimStays` | lab32v2/cash/CashImpl.cpp:53-62 | because the iterator is stepped after each erase, of two neighbours at most one is evicted |
| `Eviction.AddThatFitsEvictsNothing` | lab32v2/cash/CashImpl.cpp:52-79 | an add for which there is room leaves every element as it was and appends the new one to the list |
| `Eviction.AddEvictsNoMoreThanNeeded` | lab32v2/cash/CashImpl.cpp:52-79 | any other add evicts, of the list before it, the unused elements the walk takes before one position q: the shortest part of the walk that makes room, so that with the last victim's size put back there is none, or all of it, and then the add is refused |
| `Eviction.EvictWalks` | lab32v2/cash/CashImpl.cpp:53-62 | the walk from any position takes an unused element iff it has not just taken the one before, stops behind the first victim that makes room, and leaves the rest of the list and the counter accordingly |
| `Eviction.StopIsUnique` | lab32v2/cash/CashImpl.cpp:58-60 | there is only one position at which a walk may stop |
| `CacheTheorems.AddRefusesIff` | lab32v2/cash/CashImpl.cpp:45-70 | an add is refused iff the element is too large or neither the room there is nor the room the walk makes is enough, the latter read off the list before the call |
| `CacheTheorems.RoomIsMissedIff` | lab32v2/cash/CashImpl.cpp:52-70 | an add is refused although evicting all unused elements would make room iff what the walk steps over is what would have made it |
| `CacheTheorems.RoomMayBeMissed` | lab32v2/cash/CashImpl.cpp:52-70 | the shortest such list: two unused elements of which only both together make room; Incidents.RoomMissed reaches one |
| `ProxyHistories.HistoryBase` | lab32v2/server/HandlerOneClientImpl.cpp:60-239 | in every state of every history, whatever anybody sends: the cache invariant, hashes, user counts, the one writer of each element, and the role of each connection towards the cache |
| `ProxyHistories.KeptIffOthersOrInTurn` | lab32v2/server/HandlerOneClientImpl.cpp:67-117 | in any history, from a state in which connection i has its invariant, an action keeps it iff the action is another connection's or comes in turn |
| `ProxyHistories.ConnIsSafeIffOwnInTurn` | lab32v2/server/HandlerOneClientImpl.cpp:67-117 | connections are isolated: in every history, connection i has its invariant throughout iff all its own chunks come in their senders' turn, whatever is sent on the others |
| `ProxyHistories.WriterKept` | lab32v2/buffer/BufferImpl.cpp:72-84 | in every history each element has exactly one connection that caches it, and that one keeps its invariant as long as its own chunks come in turn |
| `ProxyHistories.HistoryIsSafeIffOrderly` | lab32v2/server/HandlerOneClientImpl.cpp:67-117 | a history keeps the invariant of the whole system throughout iff every chunk in it, on whatever connection, comes in its sender's turn |
| `ProxyHistories.OrderlyIffKept` | lab32v2/server/HandlerOneClientImpl.cpp:67-117 | from a state with the invariant, any possible action keeps it iff it is orderly |
| `ProxyOrder.InTurnIffKept` | lab32v2/server/HandlerOneClientImpl.cpp:67-117 | the same for one connection: an origin's chunk breaks its invariant iff the request is still being relayed, a client's iff the request has been relayed or makes a GET be parsed again |
| `ProxyOrder.EarlyAnswerGoesBack` | lab32v2/buffer/BufferImpl.cpp:14-19 | an origin that speaks during a body: its bytes are counted against the announced request length and are drained back to it |
| `ProxyOrder.EarlyAnswerConnectsTwice` | lab32v2/server/HandlerOneClientImpl.cpp:99-110 | an origin that speaks before a GET is sent on: a second origin is attached to the buffer, and once the first has gone, the client's going frees it under the second |
| `ProxyOrder.EarlyAnswerMeetsCache` | lab32v2/buffer/BufferImpl.cpp:32-39 | the same when the response has been cached meanwhile: the client becomes a reader with an origin attached and no reader loop |
| `ProxyOrder.LateByteReplacesOrigin` | lab32v2/server/HandlerOneClientImpl.cpp:99-110 | a byte the client sends behind a GET whose origin has left before it was sent on: another origin is attached in its place with the buffer owned properly, and the closing rules close it undrained |
| `Incidents.EarlyByteAfterGet` | lab32v2/server/HandlerOneClientImpl.cpp:67-117 | a history of five actions after which a buffer has been freed with one of two origins still attached to it |
| `Incidents.EarlyByteAfterPost` | lab32v2/buffer/BufferImpl.cpp:58-64 | a history of four actions after which an origin has been sent its own byte behind a POST |
| `Incidents.ReplacedOrigin` | lab32v2/server/HandlerOneClientImpl.cpp:99-117 | a history of four actions, the last one out of turn, in which a new origin replaces one that has left; the buffer is owned properly, but the new origin must be closed before it has been sent anything |
| `Incidents.LateByteIntoCache` | lab32v2/buffer/BufferImpl.cpp:10-25 | a history of five actions after which a byte the client sent is cached as the body of the response and the download counts as complete, although the origin has sent the heading only |
| `Incidents.FailedDrain` | lab32v2/server/HandlerOneClientImpl.cpp:152-154 | an orderly history of three actions after which the origin has been sent nothing of a request that counts as relayed |
| `Incidents.Surplus` | lab32v2/buffer/BufferImpl.cpp:114-116 | an orderly history of five actions after which the only element holds 67 bytes and byteInCash counts 66 |
| `Incidents.RoomMissed` | lab32v2/cash/CashImpl.cpp:52-70 | an orderly history of twelve actions in which an answer is not cached, although both cached elements are unused and evicting both would make room for it |
| `ProxySteps.ActionKeeps` | lab32v2/buffer/BufferImpl.cpp:10-212 | one action in turn keeps the invariant of its connection and of the cache, and changes other elements only in the allowed ways |
| `ProxyRoles.ActionDone` | lab32v2/buffer/BufferImpl.cpp:10-212 | any possible action, in turn or not, keeps the connection's role towards the cache (it never reads and writes it at once, its pointers are good, it appends only while its element is marked connected) and changes other elements only in the allowed ways |
| `ProxyHistories.PointersAreGood` | lab32v2/buffer/BufferImpl.cpp:66-84 | in every history, whatever anybody sends, the parsed request and the cache element a buffer points to exist when they are followed |
| `ProxyHistories.OtherKept` | lab32v2/cash/CashElementImpl.cpp:106-129 | what one connection may do to an element keeps the invariant of every other connection |
| `Passes.UserPassWrites` | lab32v2/server/HandlerOneClientImpl.cpp:145-171 | a pass over a client in turn whose socket is writable: iff it awaits a response and bytes wait that may be sent on, the first BUF_SIZE - 1 of them, or all, are counted as sent and leave the buffer, and the socket takes of them what the write says; the client is removed iff its exchange is over, or its origin gone, with nothing left |
| `Passes.UserPassEnds` | lab32v2/server/HandlerOneClientImpl.cpp:63-76 | in any state, a hang-up or an empty read removes the client, takes a reader off its element, and takes the origin along unless a response is being cached |
| `Passes.UserPassIdles` | lab32v2/server/HandlerOneClientImpl.cpp:124-137 | a pass without chunk, hang-up or room to write sends nothing and removes the client iff its exchange is over, or its origin is gone and nothing waits for it |
| `Passes.UserPassReads` | lab32v2/server/HandlerOneClientImpl.cpp:77-137 | in any state, a pass with a chunk of the client's reads it and sends nothing; it ends the loop iff the client has become a reader or found no origin, and else removes the client iff the closing rules, written out, hold of the buffer after the chunk |
| `Passes.OriginPassWrites` | lab32v2/server/HandlerOneClientImpl.cpp:145-163 | a pass over an origin in turn whose socket is writable: while it awaits the request, the first BUF_SIZE - 1 waiting bytes, or all, are counted as sent and leave the buffer, and the socket takes of them what the write says; the response is awaited iff that was the last of the whole request; it is removed iff its side is over, or the client has gone and the response is complete |
| `Passes.OriginPassEnds` | lab32v2/server/HandlerOneClientImpl.cpp:63-76 | in any state, a hang-up or an empty read removes the origin, ends its side and tells the element of a response that is being cached, and no other, that its origin has left |
| `Passes.OriginPassCloses` | lab32v2/server/HandlerOneClientImpl.cpp:120-143 | in any state, a pass without chunk or hang-up removes the origin iff the closing rules, written out, hold of the buffer |
| `Passes.OriginPassReads` | lab32v2/server/HandlerOneClientImpl.cpp:77-143 | in any state, a pass with a chunk of the origin's reads it and sends nothing, and removes the origin iff it asked in vain or the closing rules hold of the buffer after the chunk |
| `Passes.RequestGoesWhere` | lab32v2/buffer/BufferImpl.cpp:27-56 | the chunk that completes a request heading: answered with the error text iff it does not parse; else iff a listed element has its hash the client becomes a counted reader of one that has, and no origin is asked; else it is relayed, or the client removed if no origin is found |
| `Passes.UnannouncedEndsWithItsMark` | lab32v2/buffer/BufferImpl.cpp:126-134 | without an announced length the end is noticed with the chunk after which the unsent part of the buffer holds 0, CR, LF, CR, LF |
| `HandlerSpec.ServeUserActs` | lab32v2/server/HandlerOneClientImpl.cpp:60-179 | whatever the user sends and when, a pass of the handler over the user's endpoint is a sequence of at most two actions possible in the transition system, orderly iff its chunk comes in turn; which ones, the rows of Passes say by what becomes of bytes and endpoints |
| `HandlerSpec.ServeOriginActs` | lab32v2/server/HandlerOneClientImpl.cpp:60-179 | the same for the origin's endpoint, whatever the origin sends and when |
| `HandlerSpec.PerformProlongsHistory` | lab32v2/server/HandlerOneClientImpl.cpp:60-179 | so each pass prolongs a history, and all theorems about histories apply after it |
| `HandlerTheorems.PassesBeginSteady` | lab32v2/server/HandlerOneClientImpl.cpp:60-179 | what the methods demand of a connection before a pass holds in every state of every history in which no second origin has been put on its buffer beside another, in turn or not, replaced origins included |
| `HandlerTheorems.UserInTurnAsksOnce` | lab32v2/server/HandlerOneClientImpl.cpp:99-110 | a user's chunk that comes in turn never puts a second origin on the buffer, the one case the methods exclude |
| `HandlerTheorems.OriginInTurnAsksOnce` | lab32v2/server/HandlerOneClientImpl.cpp:99-110 | the same for an origin's chunk |
| `HandlerTheorems.PassAsksIffOwnerLost` | lab32v2/server/HandlerOneClientImpl.cpp:99-110 | the one case the methods exclude, a second origin beside one still attached, is exactly the chunk with which an owned buffer loses its proper owners |
| `HandlerSpec.ReadKeepsEnds` | lab32v2/buffer/BufferImpl.cpp:10-56 | a chunk never changes who is connected; only a parsed heading asks for an origin or turns to the cache, and no chunk turns back from it |
| `ProxySystem.AfterOneMoreWrite` | lab32v2/server/HandlerOneClientImpl.cpp:332-340 | one round of sendAll sends a non-empty chunk that continues the content, and the buffer then counts it |
| `CacheSpec.FindKeepsInv` | lab32v2/cash/CashImpl.cpp:10-36 | a hit keeps the cache invariant and the set of listed elements |
| `CacheSpec.UnlinkKeepsInv` | lab32v2/cash/CashImpl.cpp:55-57 | unlinking an element and crediting its size keeps the invariant and removes just that element |
| `CacheSpec.EvictKeepsInv` | lab32v2/cash/CashImpl.cpp:53-62 | the eviction walk keeps the invariant and changes an element only by evicting it, unused, with a credit of its current size; where it stops is Eviction.EvictWalks |
| `CacheSpec.AddKeepsInv` | lab32v2/cash/CashImpl.cpp:38-80 | an add keeps the invariant, at most evicts old elements and creates an empty element with its reservation |
| `CacheSpec.UpdateKeepsInv` | lab32v2/cash/CashElementImpl.cpp:15-129 | appending, counting users and setting flags keep the cache invariant |
| `HandlerObjects.HandlerOneClientImpl.HandleUser` | lab32v2/server/HandlerOneClientImpl.cpp:60-179 | on the objects, a pass over the user's endpoint changes buffer, endpoints, cache, bytes counted and bytes taken by the sockets exactly as ServeUser says, the function the rows of Passes pin down, also when a new origin replaces one that has left, keeps the ownership invariant, and reports whether the loop ends; only a chunk that puts a second origin beside one still attached is excluded |
| `HandlerObjects.HandlerOneClientImpl.HandleOrigin` | lab32v2/server/HandlerOneClientImpl.cpp:60-179 | the same for the origin's endpoint and ServeOrigin, with the same exclusion |
| `HandlerObjects.HandlerOneClientImpl.ReadFromUser` | lab32v2/server/HandlerOneClientImpl.cpp:77-118 | a chunk from the user, in turn or not, goes through the buffer and is noted as read, then a hit ends the pass or an origin is connected |
| `HandlerObjects.HandlerOneClientImpl.ReadFromOrigin` | lab32v2/server/HandlerOneClientImpl.cpp:77-118 | a chunk from the origin, in turn or not, goes through the buffer and is noted as read; if it makes the buffer ask for an origin in vain, this one goes; that it finds one is excluded |
| `HandlerObjects.HandlerOneClientImpl.RefuseOrigin` | lab32v2/server/HandlerOneClientImpl.cpp:99-117 | if no origin is found for the bytes of an origin, that origin's endpoint is deleted with everything that follows from it |
| `HandlerObjects.HandlerOneClientImpl.Receive` | lab32v2/server/HandlerOneClientImpl.cpp:78 | a chunk changes only the buffer and the cache, and only adds new elements |
| `HandlerObjects.HandlerOneClientImpl.ConnectToOrigin` | lab32v2/server/HandlerOneClientImpl.cpp:99-117 | a new origin, the first or one in place of one that has left, is paired with the user and listed; a refused connection deletes the user |
| `HandlerObjects.HandlerOneClientImpl.Connect` | lab32v2/server/HandlerOneClientImpl.cpp:102-110 | both endpoints point to each other and to the one buffer; a new origin continues the record of the one it replaces |
| `HandlerObjects.HandlerOneClientImpl.ApplyUserRules` | lab32v2/server/HandlerOneClientImpl.cpp:125-171 | closing rules and drain of the user's endpoint, with the bytes its socket took, as in the passes that Passes.UserPassWrites and Passes.UserPassIdles are about |
| `HandlerObjects.HandlerOneClientImpl.ApplyOriginRules` | lab32v2/server/HandlerOneClientImpl.cpp:120-163 | closing rules and drain of the origin's endpoint, with the bytes its socket took |
| `HandlerObjects.HandlerOneClientImpl.DrainToClient` | lab32v2/server/HandlerOneClientImpl.cpp:152-170 | a drain to the user with the bytes its socket took; the user is deleted when the response is over |
| `HandlerObjects.HandlerOneClientImpl.Drain` | lab32v2/server/HandlerOneClientImpl.cpp:152-154 | what was taken from the buffer is counted as sent and handed to one write, which takes a part of it; the outcome is not looked at |
| `HandlerObjects.HandlerOneClientImpl.DeleteClient` | lab32v2/server/HandlerOneClientImpl.cpp:181-189 | deletes an endpoint with everything that follows from it, takes it out of the list and yields the next position; no deleted endpoint or buffer is used and none is deleted twice |
| `HandlerObjects.HandlerOneClientImpl.DeleteClientUser` | lab32v2/server/HandlerOneClientImpl.cpp:191-218 | user teardown, with the recursive teardown of the pair unless a response is being cached |
| `HandlerObjects.HandlerOneClientImpl.DeletePairServer` | lab32v2/server/HandlerOneClientImpl.cpp:198-201 | the walk that deletes the pair from the list it walks ends in bounds with the pair gone |
| `HandlerObjects.HandlerOneClientImpl.Release` | lab32v2/server/HandlerOneClientImpl.cpp:206-217 | a reader is discounted, the client marked gone, and the buffer freed iff the origin is gone |
| `HandlerObjects.HandlerOneClientImpl.DeleteClientServer` | lab32v2/server/HandlerOneClientImpl.cpp:220-239 | origin teardown: users forget the pair, the element learns its origin left, the buffer is freed iff the client is gone |
| `HandlerObjects.HandlerOneClientImpl.SendAll` | lab32v2/server/HandlerOneClientImpl.cpp:331-342 | the loop ends; what it has counted as sent is the element's content from the old counter on, and the socket took all of it iff no write was cut; success iff nothing is left; the buffer's new state in full |
| `HandlerObjects.ClientImpl.EraseIt` | lab32v2/client/ClientImpl.cpp:99-106 | removes the first registration of the client and no other |
| `HandlerObjects.ClientImpl.SendBuf` | lab32v2/client/ClientImpl.cpp:13-16 | a write fails and takes nothing, or takes as much of the chunk as the socket allows and returns the number |
| `BufferObjects.BufferImpl.ReadFromSocket` | lab32v2/buffer/BufferImpl.cpp:10-25 | one chunk changes buffer and cache exactly as BufferSpec.ReadFromSocket says, the function the invariant is proved about |
| `BufferObjects.BufferImpl.WrightRequestHeading` | lab32v2/buffer/BufferImpl.cpp:27-56 | the step taken in the request heading phase, with the rejected heading as an error result |
| `BufferObjects.BufferImpl.Refuse` | lab32v2/buffer/BufferImpl.cpp:259-273 | a heading that does not parse leaves the error text to be sent |
| `BufferObjects.BufferImpl.ReadFromCash` | lab32v2/buffer/BufferImpl.cpp:32-39 | a hit makes the client a counted reader of the element found |
| `BufferObjects.BufferImpl.RelayToOrigin` | lab32v2/buffer/BufferImpl.cpp:42-54 | a miss asks for an origin and frames the request |
| `BufferObjects.BufferImpl.WrightRequestBody` | lab32v2/buffer/BufferImpl.cpp:58-64 | the step taken in the request body phase |
| `BufferObjects.BufferImpl.WrightResponseHeading` | lab32v2/buffer/BufferImpl.cpp:66-109 | the step taken in the response heading phase |
| `BufferObjects.BufferImpl.OpenElement` | lab32v2/buffer/BufferImpl.cpp:72-84 | an element is created, filled and marked connected iff the response may be cached, is not cached yet and fits |
| `BufferObjects.BufferImpl.StartBody` | lab32v2/buffer/BufferImpl.cpp:86-107 | the body is framed and a body already complete ends the download |
| `BufferObjects.BufferImpl.WrightResponseBody` | lab32v2/buffer/BufferImpl.cpp:111-135 | the step taken in the response body phase |
| `BufferObjects.BufferImpl.SendBuf` | lab32v2/buffer/BufferImpl.cpp:146-169 | the next chunk, from the element or from the buffer, in at most BUF_SIZE - 1 bytes |
| `BufferObjects.BufferImpl.ProofSend` | lab32v2/buffer/BufferImpl.cpp:171-212 | the bookkeeping after a write, for readers and for relays |
| `BufferObjects.BufferImpl.IsReadyToSend` | lab32v2/buffer/BufferImpl.cpp:231-236 | readiness, raised when the element has grown past the reader |
| `CashObjects.CashImpl.FindResponseInCash` | lab32v2/cash/CashImpl.cpp:10-36 | a hit splices its element to the end of the list and returns it; a miss changes nothing |
| `CashObjects.CashImpl.AddStringToCash` | lab32v2/cash/CashImpl.cpp:38-80 | refuses, or evicts and links a new element, with the whole new cache state; Eviction and CacheTheorems.AddRefusesIff say which |
| `CashObjects.CashImpl.EvictUnused` | lab32v2/cash/CashImpl.cpp:53-62 | the in-place walk equals the recursive one from the front, of which Eviction.EvictWalks says what it takes and where it stops |
| `CashObjects.CashImpl.Erase` | lab32v2/cash/CashImpl.cpp:55-57 | unlinks one element in place and credits its current size |
| `CashObjects.CashImpl.IsElementInCash` | lab32v2/cash/CashImpl.cpp:92-114 | true iff an element with the request's hash is listed |
| `CashObjects.CashElementImpl.AppendStringToCash` | lab32v2/cash/CashElementImpl.cpp:117-129 | the content grows by exactly the bytes given |
| `CashObjects.CashElementImpl.MemCopyFromCash` | lab32v2/cash/CashElementImpl.cpp:106-115 | the copy has the size asked for and continues the content at the offset |
| `CashObjects.CashElementImpl.DellCondVar` | lab32v2/cash/CashElementImpl.cpp:144-160 | removes the first subscription for the condition variable |
| `CashObjects.ErasedRemovesOne` | lab32v2/cash/CashElementImpl.cpp:150-155 | leaving takes back exactly one subscription, so nobody else is unsubscribed |
| `Parser.Search` | lab32v2/parser/ParserImpl.cpp:11-20 | the position is that of the first match, and -1 iff there is none |
| `Parser.HeadingEndIsStable` | lab32v2/parser/ParserImpl.cpp:11-20 | the end of a heading, once found in a stream, never moves when bytes arrive |
| `Parser.HeadingEndInPrefix` | lab32v2/parser/ParserImpl.cpp:11-20 | a prefix shows the heading's end iff it is long enough to contain it |
| `Parser.ParsingHeading` | lab32v2/parser/ParserImpl.cpp:26-42 | a request heading parses iff it is long enough and names a host; it is a GET iff it starts with GET; its length is Parser.RequestLength |
| `Parser.ParsingResponseHeading` | lab32v2/parser/ParserImpl.cpp:44-65 | a response is an error iff it nowhere says 200 OK, and has a length iff it has the field |
| `Parser.ContentLengthRoundTrip` | lab32v2/parser/ParserImpl.cpp:100-112 | a heading that announces n bytes in decimal is read as announcing n bytes |
| `Parser.RequestLength` | lab32v2/parser/ParserImpl.cpp:26-42 | a request heading that parses has length n iff the first Content-Length field of its text has the decimal value n, and length zero if there is no such field |
| `Parser.ResponseLength` | lab32v2/parser/ParserImpl.cpp:44-65 | the same of every response heading, whatever its status |
| `Parser.LengthIsAnnounced` | lab32v2/parser/ParserImpl.cpp:100-112 | the length found is n iff the text is some text without the field, the field, digits with value n, and a rest that does not go on with a digit; none is found iff the field is nowhere |
| `Parser.RenderedIsAnnounced` | lab32v2/parser/ParserImpl.cpp:100-112 | a request or response heading in which n is rendered as a decimal number has length n |
| `Parser.HeadingEndIff` | lab32v2/parser/ParserImpl.cpp:11-20 | the heading ends at a position iff the first CR, LF, CR, LF ends there, and is incomplete iff there is none |
| `Parser.BodyEndIff` | lab32v2/parser/ParserImpl.cpp:67-76 | the end of a body without length is seen iff the buffer somewhere holds 0, CR, LF, CR, LF |
| `ThreeMutexes.RefinesTurns` | lab11/main.c:82-141 | for every n and every schedule, the prints are those of the turn-taking machine with main first |
| `ThreeMutexes.PrintsAlternate` | lab11/main.c:95-110 | prints are main, new, main, new, ... with their loop counters, and main is ahead by one line or none |
| `ThreeMutexes.RunInv` | lab11/main.c:82-150 | mutex ownership modulo three is tied to both loop counters and to ready, in every reachable state |
| `ThreeMutexes.EveryCallSucceeds` | lab11/main.c:30-46 | no thread locks a mutex it owns or unlocks one it does not, so no error-checking call fails |
| `ThreeMutexes.NeverStuck` | lab11/main.c:82-145 | until both threads have ended, one of them can execute a statement that is not a turn of the spin loop |
| `ThreeMutexes.StepsCountDown` | lab11/main.c:95-113 | every step but a turn of the spin loop lowers a measure, and that turn changes nothing |
| `ThreeMutexes.MovesAreBounded` | lab11/main.c:82-145 | a run changes its state at most 8n + 13 times, however long it spins |
| `ThreeMutexes.EndsClean` | lab11/main.c:111-148 | at the end every mutex is free and each thread has printed n lines |
| `TwoSemaphores.RefinesTurns` | lab14/main.c:75-122 | for every n and every schedule, the prints are those of the same machine with the new thread first |
| `TwoSemaphores.PrintsAlternate` | lab14/main.c:80-94 | prints are new, main, new, main, ... and the new thread is ahead by one line or none |
| `TwoSemaphores.OneThreadAtATime` | lab14/main.c:83-90 | semaphore values and threads between wait and post add up to one in every reachable state |
| `TwoSemaphores.NeverStuck` | lab14/main.c:75-122 | until both threads have ended, one of them can execute a statement |
| `TwoSemaphores.RunsAreBounded` | lab14/main.c:75-122 | a run has at most 8n + 8 steps |
| `TwoSemaphores.EndsClean` | lab14/main.c:115-124 | at the end both semaphores have their initial values and each thread has printed n lines |
| `Alternation.TurnsAlternate` | lab11/main.c:95-110 | every history of the turn-taking machine alternates, line by line |
| `Alternation.Balanced` | lab14/main.c:80-94 | in an alternating trace the first mover has half the lines, rounded up, and the other half, rounded down |
| `PartialSums.CalculatePi` | lab8/main.c:116-137 | for any number of steps and threads and any order in which threads finish, the result is four times the sequential sum plus the deviation of the split |
| `PartialSums.DeviationBounds` | lab8/main.c:69-90 | with q = steps / n and r = steps % n, the deviation is between 0 and r times the term at q; it is zero iff n divides the steps or there is a single step |
| `PartialSums.JoinedIsSumPlusDeviation` | lab8/main.c:37-90 | the joined sum is the sequential sum plus the terms at q, 2q, ..., rq less the last r terms |
| `PartialSums.EachStepCovered` | lab8/main.c:71-81 | indices q, 2q, ..., rq are summed twice, the last r not at all, all others once |
| `PartialSums.FewSteps` | lab8/main.c:71-81 | with fewer steps than threads, step 0 is summed once per step and nothing else is summed |
| `PartialSums.LengthsAddUp` | lab8/main.c:76-81 | the range lengths total the number of steps, tiling or not |
| `PartialSums.CreateThreadsForPartialSum` | lab8/main.c:69-90 | fills every record with its range and leaves results alone |
| `PartialSums.CalcPartialSum` | lab8/main.c:37-50 | a thread stores the sum over its range in its own record and touches no other |
| `PartialSums.RunThreads` | lab8/main.c:69-90 | in whatever order the threads finish, each record ends with the sum over its range |
| `PartialSums.JoinThreadsWithPartialSum` | lab8/main.c:52-67 | the joined sum is the sum of the partial sums |
| `BinaryStrings.BinaryString.AddToMallocedBuf` | lab31/v2/binaryString/BinaryString.cpp:189-211 | old bytes followed by the other's, whether it grows or appends in place, with the new capacity; the string itself may be appended in place |
| `BinaryStrings.BinaryString.Add` | lab31/v2/binaryString/BinaryString.cpp:91-105 | old bytes followed by the other's, also when the other is the string itself |
| `BinaryStrings.BinaryString.SetNewDataNotMalloc` | lab31/v2/binaryString/BinaryString.cpp:145-155 | the old slice of the other string, also for the string itself with overlapping copies within the recorded capacity |
| `BinaryStrings.BinaryString.SubBinaryString` | lab31/v2/binaryString/BinaryString.cpp:59-74 | as many bytes from the start position on as lie between the positions, but no more than the string has; the capacity is recorded in the wrong object, which keeps the weak invariant |
| `BinaryStrings.BinaryString.Assign` | lab31/v2/binaryString/BinaryString.cpp:107-116 | a copy of a distinct string; self-assignment keeps the length only |
| `BinaryStrings.BinaryString.Copy` | lab31/v2/binaryString/BinaryString.cpp:50-57 | a copy with its own bytes |
| `BinaryStrings.BinaryString.From` | lab31/v2/binaryString/BinaryString.cpp:12-23 | the given bytes, or no allocation for none |
| `BinaryStrings.BinaryString.ClearData` | lab31/v2/binaryString/BinaryString.cpp:125-129 | the empty string, with the recorded capacity zeroed |

## Left out

- Sockets, `poll` and its event masks, DNS, signals, logging, console output and thread creation: only arriving chunks, write outcomes, refused connections and hang-ups remain, as inputs.
- `HandlerObjects.HandlerOneClientImpl.HandleUser`: a second origin beside one that is still attached is excluded by the precondition, because the handler then writes a third entry into a poll set of two (`lab32v2/server/HandlerOneClientImpl.h:49`, `lab32v2/server/HandlerOneClientImpl.cpp:48-58`) and keeps a single pair pointer; the transition system counts the attached origins and shows what follows.
- `HandlerObjects.HandlerOneClientImpl.HandleOrigin`: the same.
- `HandlerObjects.HandlerOneClientImpl.ReadFromUser`: the same.
- `HandlerObjects.HandlerOneClientImpl.ReadFromOrigin`: the same.
- `ProxySystem.ServerRead`: when an origin's bytes ask for an origin in vain the source ends the thread (`lab32v2/server/HandlerOneClientImpl.cpp:112-115`), so the user's endpoint is never served again and its buffer never freed; the model ends this origin only and lets the user go on.
- `ProxyOrder.EarlyAnswerConnectsTwice`: the teardown of the second of two origins, and the pair pointers between three endpoints, are not modelled; the transition system goes on with one flag for the origins, the first of which the client knows.
- The order in which `handlingEvent` visits endpoints within one round, and its list iterator when it is stepped past the end: one pass over one endpoint is modelled, and the transition system lets passes follow each other in any order.
- The loop of `getFromCash` as a method: it waits for other threads, so it is modelled statement by statement in the transition system; `SendAll` is also a method, run while its element stands still.
- Wake-up of waiting readers: a signal can be missed because the signaller does not hold the waiter's mutex; a wait is modelled as a step that may or may not return, and no claim is made that it does.
- Failure of locks and of their initialisation.
- The end of a response without Content-Length: the source looks for "0\r\n\r\n" in the unsent part of the buffer only, so what it notices depends on the chunks; `Passes.UnannouncedEndsWithItsMark` says when it notices it, no claim is made that this is the end.
- Host name and port: only whether a heading names a host, which decides between parsing and rejection.
- Integer widths: `int` positions in the parser and in `BinaryString` loops, overflow of `atoi`, `size_t` hashes stored as `long long`.
- `CashObjects.CashElementImpl.MemCopyFromCash`: the caller's string must have been resized before; the model returns the copied bytes instead.
- `BinaryStrings.BinaryString.AddToMallocedBuf`: appending a string to itself with growth is excluded by the precondition, because the source then reads freed bytes.
- `BinaryStrings.BinaryString.SetNewDataNotMalloc`: replacing a string by its own slice beyond the recorded capacity is excluded by the precondition, for the same reason.
- `shiftDataNotMalloc`, `copyData`, `setBinaryString` and the other members of `BinaryString`: the first is not the shift its name says, since its loop uses the already reduced size; the others are plain copies.
- Floating point in `lab8`: sums are exact reals; failure of `pthread_create` and `pthread_join`, and the parsing of the argument, are not modelled, and a thread's whole run is one step, since it touches its own record only.
- `destroy_sems` and `destroy_mutexes`, `pthread_create` failure in `lab11` and `lab14`: the models start after creation and end with both threads joined.
- The earlier proxies `lab31/v1`, `lab31/v2` (but for its byte string) and `lab32`, and `lab1` to `lab6` and `lab12`: earlier variants of the same machine, or demonstrations with only easy claims.
