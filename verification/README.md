# Chat server: a verified model

A Dafny model of a multi-threaded TCP chat server and proofs about it. It covers the framed connection and its two stream
readers, the worker pool and the two event loops, message delivery from a request to the connections of its receivers, the
in-memory store with its message history, the room cache, presence, sessions, and the password hash with everything under
it. `dafny verify dfyconfig.toml` checks the whole project.

Objects that one thread updates are classes whose methods are proved equal to functions on values: `Connection`,
`FrameDecoder`, `Hasher`, `Repositories`, `RoomManager`, `SessionManager`, `Registry` (presence) and `Server` (the router
and the request handlers). What threads do to each other is a step system: a total function `Step(state, event)`, where an
event is one locked section, one atomic access or one callback, and `Run(events)`. An event whose thread is not at that
point changes nothing, so a theorem about `Run(es)` for every `es` is a theorem about every interleaving.

| module | what it is |
|---|---|
| `Framing`, `FrameDecoding`, `Connections`, `ConnectionRuns` | frames, the client's decoder, the server's connection, and the connection under every interleaving of senders, closers and the event loop |
| `ThreadPool`, `Reactor`, `EpollReactor`, `SelectReactor` | the worker pool; posting to the event loop, one abstract protocol and the two reactors that refine it |
| `Delivery`, `DeliveryRuns`, `DeliveryContents`, `ChatServer` | delivery with whole handlers as steps: conservation, order, identity, contents; and the server object that takes those steps |
| `DeliverySteps`, `DeliveryRaces`, `DeliveryRefinement` | delivery with locked sections as steps: at most once, exactly when something is lost or left waiting, and how it contains the runs of whole handlers |
| `Store`, `Messages`, `Paging`, `RoomCache`, `RoomCacheRuns`, `Presence`, `Sessions`, `SessionRuns` | the in-memory store and what stands on it |
| `Sha256`, `Sha256Facts`, `Pbkdf2`, `Base64`, `Password`, `Bytes` | the hash and password stack, down to bytes; its constants and a published digest |

Properties that the code does not have on all inputs, with the exact condition for it:

* A peer gets all payloads back if and only if it takes all their lengths (`DecodeOfEncode`, `StreamEndToEnd`): an empty
  payload is sent (`EmptyPayloadIsSent`) and then rejected by every reader. The client's decoder also loses payloads
  before the rejected one, if and only if the feed that throws had completed them (`ThrowLosesFrames`).
* The presence table agrees with the connections' own identities if and only if no connection is bound after it has closed
  or while it still carries another identity (`AgreementIsKeptUnlessStale`, `PresenceAgreesUnlessStale`). Both can happen:
  a login does not unbind an earlier user, and a worker can run a login after the close. `SecondLoginKeepsFirstBinding`
  and `LoginAfterCloseLosesMessages` show what they cost.
* With locked sections as steps, a message can be drained and then dropped, or queued for a user who is already online and
  stay there. `NothingIsLostUnless` and `QueuesAreDrainedUnlessStranded` say exactly when, `SomeRunDrops` and
  `SomeRunStrands` are such runs. With whole handlers as steps neither happens (`EveryMessageIsQueuedOrHanded`), and those
  runs are among the runs of locked sections (`HandlersAreSections`).
* Room cache and store agree on every pair of room and user that no operation is changing, if and only if no update of the
  cache is overtaken in the store by a contrary operation (`CacheAgreesUnlessOvertaken`). Operations on one pair that do
  not overlap are never overtaken (`CacheAgreesWithStore`); overlapping ones can disagree for good
  (`OverlapBreaksAgreement`).
* A restart accepts no token that was not valid before it, unless it falls between the two halves of a revocation
  (`RestartAcceptsNoMore`, with the run `RestartCanRevive`).
* A PBKDF2 block counter is exact if and only if the output needs fewer than 2^32 blocks (`CounterIsExact`).

Where code and documentation differ the model follows the code: the comment in include/chat/message_router.h:28 says that a
room message goes to every online member except the sender, but src/chat/message_router.cpp:49-58 also hands it to the
sender's own connections.

## Model

| member | source | states |
|---|---|---|
| `Framing.ParseIsSound` | src/net/connection.cpp:63-90 | the frames a reader finds, written out again, and what it keeps are the whole stream; each frame has a good length; it stops exactly at a bad header or an incomplete frame |
| `Framing.ParseExtends` | src/net/connection.cpp:61-90 | bytes that arrive later only add frames, and the residue is all a reader has to remember |
| `Framing.BadIsFinal` | src/net/connection.cpp:70-74 | after a bad header no bytes whatever add a frame |
| `Framing.DecodeOfEncode` | src/protocol/framing.cpp:7-45 | reading a written stream gives the payloads up to the first rejected one; all of them if and only if all lengths are between 1 and the limit |
| `Framing.ResidueIsBounded` | src/net/connection.cpp:64-83 | before a bad header a reader holds fewer than 4 bytes, or fewer than the wanted length, itself at most the limit |
| `Bytes.FromBe32Is` | src/net/connection.cpp:66-69 | a header is read most significant byte first |
| `Bytes.Be32Is` | src/net/connection.cpp:112-118 | and written so |
| `FrameDecoding.FrameDecoder.Feed` | src/protocol/framing.cpp:19-45 | throws exactly when the bytes so far hold a bad header, and which exception; otherwise returns exactly the frames the new bytes complete |
| `FrameDecoding.FrameDecoder.ParseBuffer` | src/protocol/framing.cpp:24-44 | the loop computes the pure parse of what is pending, for every state it can start from |
| `FrameDecoding.Decode` | src/protocol/framing.cpp:19-45 | fed chunk by chunk, the frames do not depend on how the stream was cut; feeding ends early if and only if the stream is malformed |
| `FrameDecoding.ThrowIsFinal` | src/protocol/framing.cpp:31-33 | once a feed has thrown every later one throws |
| `Connections.Connection.ParseBuffer` | src/net/connection.cpp:63-90 | the inner loop calls back exactly the frames of the pending bytes, in order, and keeps the residue |
| `Connections.Connection.OnReadable` | src/net/connection.cpp:56-104 | for every sequence of `recv` results, state, callbacks and close request are those of the stream function `ReadAll` |
| `Connections.Connection.TryFlushLocked` | src/net/connection.cpp:136-162 | for every sequence of `send` results, bytes move from buffer to wire as `Flushed` says, with the write interest it leaves |
| `Connections.Connection.OnEvent` | src/net/connection.cpp:49-54 | reading, then writing, neither after the close |
| `Connections.Connection.Append` | src/net/connection.cpp:119-126 | the locked section appends the frame of the payload |
| `Connections.Connection.SendFrame` | src/net/connection.cpp:106-134 | if the connection is neither closing nor closed and the payload fits, one frame is appended and one flush posted; otherwise nothing changes |
| `Connections.Connection.ScheduleClose` | src/net/connection.cpp:171-176 | only the first request posts the close |
| `Connections.Connection.DeliverCloseNow` | src/net/connection.cpp:178-189 | only the first delivery closes the descriptor and calls back |
| `Connections.Connection.RunPosted` | src/net/connection.cpp:128-134 | the oldest posted closure runs, a flush not after the close |
| `ConnectionRuns.FlushKeeps` | src/net/connection.cpp:136-162 | a flush loses and reorders no byte, and leaves some only with write interest armed or a close requested |
| `ConnectionRuns.ReadKeeps` | src/net/connection.cpp:56-104 | reading leaves the write side alone and keeps the callbacks equal to the parse of what was received |
| `ConnectionRuns.RunKeeps` | src/net/connection.cpp:49-189 | the invariant of every interleaving: no byte lost, none stranded, callbacks equal to the parse, at most one close |
| `ConnectionRuns.StreamEndToEnd` | src/net/connection.cpp:106-162 | feeds any chunks of what reached the wire to the client's decoder, after any run of senders, partial sends and closes: it returns accepted payloads in lock order; with all bytes fed it has not thrown if and only if it takes all their lengths, and then it has returned them all; if it has thrown, it has returned all payloads before the rejected one if and only if the throwing feed had completed none |
| `ConnectionRuns.WireHoldsAccepted` | src/net/connection.cpp:119-162 | any part of the wire parses to a prefix of the accepted payloads, and all of it to those up to the first rejected length |
| `ConnectionRuns.EmptyPayloadIsSent` | src/net/connection.cpp:106-134 | for every limit and payload, a run that accepts and sends an empty payload after it |
| `ConnectionRuns.ThrowLosesFrames` | src/protocol/framing.cpp:20-33 | then every client throws, and loses the payload before it when both come in one chunk |
| `ConnectionRuns.NoStrandedBytes` | src/net/connection.cpp:119-162 | buffered output of a connection that is not closing always has armed write interest, a flush or close request posted, or a sender about to post; and write interest is armed only while there is output |
| `ConnectionRuns.ClosesOnce` | src/net/connection.cpp:171-189 | however many threads close, at most one close callback, right after the descriptor is closed, and no callback, `recv` or `send` after it; a requested close is with its winner, posted or done, once |
| `ConnectionRuns.ReaderComputesParse` | src/net/connection.cpp:56-104 | in every run the frames called back are the parse of the bytes received, and no later event adds one after a bad header |
| `ConnectionRuns.ReadCloses` | src/net/connection.cpp:58-103 | reading takes every result up to the first that ends it, hears exactly their bytes, and asks for the close if and only if a header is bad, the stream has ended or the call has failed |
| `ConnectionRuns.BadHeaderCloses` | src/net/connection.cpp:70-74 | in every run a connection that has received a bad header is closing |
| `ConnectionRuns.FlushSends` | src/net/connection.cpp:137-157 | a flush takes all that the socket takes, and stops only for an empty buffer, a full socket or a failure, which posts the close request |
| `ConnectionRuns.WritableSends` | src/net/connection.cpp:164-167 | a writable event with room in the socket puts all buffered bytes on the wire and disarms |
| `ConnectionRuns.SendSections` | src/net/connection.cpp:106-134 | the test, the locked section and the post, in a row, do what the call does, refusals included |
| `ConnectionRuns.CloseSections` | src/net/connection.cpp:171-176 | so do the exchange and the post of a close |
| `ThreadPool.RunKeeps` | src/common/thread_pool.cpp:5-62 | mutual exclusion, order and accounting hold in every interleaving of submitters, workers and shutdown |
| `ThreadPool.FirstInFirstOut` | src/common/thread_pool.cpp:15-24 | tasks are popped in the order they were accepted, and each popped task has run once or is running on one worker |
| `ThreadPool.ExitIsFinal` | src/common/thread_pool.cpp:43-53 | once any worker has exited the queue is empty and no continuation accepts another task |
| `ThreadPool.ShutdownDrains` | src/common/thread_pool.cpp:31-62 | when all workers have exited, every accepted task has run exactly once |
| `ThreadPool.SubmitIsAccepted` | src/common/thread_pool.cpp:15-24 | with the mutex free and no shutdown a submit is accepted and queued last |
| `ThreadPool.SubmitIsRefused` | src/common/thread_pool.cpp:16-19 | once stopping, both tests of a submit refuse |
| `ThreadPool.WorkerRunsOldest` | src/common/thread_pool.cpp:43-57 | an idle worker pops the oldest task and runs it |
| `ThreadPool.IdleWorkerExitsIffStopping` | src/common/thread_pool.cpp:48-52 | an idle worker with nothing queued exits if and only if the pool is stopping |
| `Reactor.RunKeeps` | src/net/reactor_epoll.cpp:74-147 | what has run, what is left of the batch and what is pending are the posts in order; a pending post has a wake-up on its way |
| `Reactor.WakeTakesAll` | src/net/reactor_epoll.cpp:99-143 | a woken loop takes everything pending |
| `Reactor.BatchRuns` | src/net/reactor_epoll.cpp:144-146 | and runs it, oldest first |
| `EpollReactor.Refines` | src/net/reactor_epoll.cpp:74-147 | every run of the counter version is a run of the abstract protocol |
| `EpollReactor.PostsAreKept` | src/net/reactor_epoll.cpp:74-147 | posts run in order, each at most once, and no wake-up is lost while the loop runs |
| `SelectReactor.Refines` | src/net/reactor_select.cpp:49-107 | every run of the byte-pipe version, whatever its capacity, is a run of the same protocol |
| `SelectReactor.PostsAreKept` | src/net/reactor_select.cpp:49-107 | the same guarantee for the byte-pipe version, full pipe included |
| `Delivery.ReplayKeeps` | src/chat/message_router.cpp:62-74 | a replay hands every queued message over once, in queue order, to all connections of the user, and leaves the queue empty |
| `Delivery.DmOnlineKeeps` | src/chat/message_router.cpp:13-36 | a direct message to an online user is handed over and not queued; the echo does not count as a hand-off |
| `Delivery.DmOfflineKeeps` | src/chat/message_router.cpp:24-25 | a direct message to an offline user is queued once and not handed over |
| `Delivery.RoomKeeps` | src/chat/message_router.cpp:38-60 | a room message is split between members reached now and members queued, none twice, none left out |
| `Delivery.StepKeeps` | src/handlers/handlers.cpp:23-201 | every request handler and close callback keeps the delivery invariant |
| `Delivery.EveryMessageIsQueuedOrHanded` | src/chat/message_router.cpp:13-74 | in every run each message is, for each user it is for, queued exactly once or handed in exactly one batch, never both, never neither; an online user's queue is empty |
| `DeliveryRuns.MessageIsForEveryMember` | src/handlers/handlers.cpp:100-148 | a direct message is for its receiver, a room message for every stored member but the sender; a refused request stores nothing |
| `DeliveryContents.SendStores` | src/chat/message_router.cpp:15-28 | an accepted send adds one message with its sender, receiver or room, content and time, marked delivered if and only if it is direct and the receiver is online; every other step leaves the log alone |
| `DeliveryContents.EachMessageWasAsked` | src/db/repositories.cpp:580-602 | over every run message i of the log is the one that the i-th accepted send asked for |
| `DeliveryContents.SendHandsOut` | src/chat/message_router.cpp:23-58 | who is handed the message at once, and on which connections: receiver and sender, or every member online |
| `DeliveryContents.MembersAreLastMoves` | src/handlers/handlers.cpp:150-201 | over every run a user is a stored member if and only if the last accepted create, join or leave of the pair let them in |
| `DeliveryRuns.HandedToAllBound` | src/chat/message_router.cpp:23-72 | a handler hands a message to all connections bound to the user and to no others |
| `DeliveryRuns.EachBindingIsInOrder` | src/chat/message_router.cpp:27-72 | from one bind of a connection to the next bind, logout or close, the ids handed to it never decrease and replayed messages come before live ones |
| `DeliveryRuns.IdentityIsAlwaysBound` | src/handlers/handlers.cpp:38-98 | in every run an open connection with an identity is bound to it |
| `DeliveryRuns.AgreementIsKeptUnlessStale` | src/handlers/handlers.cpp:75-78 | a step keeps every binding an open connection of that user if and only if it does not bind a closed connection or one with another identity |
| `DeliveryRuns.PresenceAgreesUnlessStale` | src/chat/chat_server.cpp:107-119 | throughout a run bindings and identities agree if and only if no such bind happens |
| `DeliveryRuns.HandedToOwners` | src/chat/message_router.cpp:23-72 | then a message reaches only open connections of the user it is for |
| `DeliveryRuns.LoginAfterCloseLosesMessages` | src/chat/chat_server.cpp:113-119 | a login handled after the close makes the next direct message go to the closed connection instead of the queue |
| `DeliveryRuns.SecondLoginKeepsFirstBinding` | src/handlers/handlers.cpp:75-78 | a second login without a logout makes messages for the first user go to a connection with the second identity, and leaves the first binding in place after the close |
| `ChatServer.Server.constructor` | src/chat/chat_server.cpp:43-63 | the new server is the initial state of the runs, with the sessions of its still empty store |
| `ChatServer.Server.SendDm` | src/chat/message_router.cpp:13-36 | stores the message from sender to receiver, marked delivered if and only if the receiver is online; the object takes exactly the step `SentDm` |
| `ChatServer.Server.FanOut` | src/chat/message_router.cpp:49-58 | the loop over the members, in any order, hands to the online ones and queues for the others except the sender |
| `ChatServer.Server.SendRoom` | src/chat/message_router.cpp:38-60 | stores the message of a member, returns 0 exactly for a sender outside the room; the object takes exactly the step `SentRoom` |
| `ChatServer.Server.ReplayOffline` | src/chat/message_router.cpp:62-74 | drains first, then hands everything to the connections found, or drops it if there are none |
| `ChatServer.Server.BindConnection` | src/chat/chat_server.cpp:53-63 | binding replays exactly when the user was offline |
| `ChatServer.Server.RequireAuth` | src/handlers/handlers.cpp:23-42 | the connection's own user, else the owner of a token that is cached and has not expired, who is then bound; what this leaves in the session cache |
| `ChatServer.Server.HandleRegister` | src/handlers/handlers.cpp:46-64 | acknowledges if and only if the sizes are right and the name is new; then an unused id with the hash of the password is stored |
| `ChatServer.Server.Release` | src/chat/chat_server.cpp:53-57 | unbinds, and notes the time exactly for a user who went offline |
| `ChatServer.RegisterThenLogin` | src/handlers/handlers.cpp:46-86 | after a registration a login with that name succeeds if and only if its password derives the registered key, and gives the registered id |
| `ChatServer.Server.HandleLogin` | src/handlers/handlers.cpp:66-86 | acknowledges if and only if the name is known and the password verifies against its stored hash; then takes the step `Login` and creates the session, otherwise changes nothing |
| `ChatServer.Server.HandleLogout` | src/handlers/handlers.cpp:88-98 | takes the step `Logout` and revokes the connection's token, if it has one, in cache and table |
| `ChatServer.Server.OnClose` | src/chat/chat_server.cpp:107-111 | takes the step `Close` |
| `ChatServer.Server.HandleSendDm` | src/handlers/handlers.cpp:100-125 | takes the step `SendDm`; acknowledges if and only if the sender is known, the content fits and the receiver exists |
| `ChatServer.Server.HandleSendRoom` | src/handlers/handlers.cpp:127-148 | takes the step `SendRoom`; acknowledges if and only if the content fits and the sender is a cached member, that is a stored member wherever the cache is exact, as it is in every run of whole handlers |
| `ChatServer.Server.HandleCreateRoom` | src/handlers/handlers.cpp:150-170 | creates the room or finds the one of that name, and joins it |
| `ChatServer.Server.HandleJoinRoom` | src/handlers/handlers.cpp:172-190 | resolves id or name and joins; acknowledges if and only if the room exists |
| `ChatServer.Server.HandleLeaveRoom` | src/handlers/handlers.cpp:192-201 | takes the step `LeaveRoom` |
| `DeliverySteps.RunKeeps` | src/chat/message_router.cpp:13-74 | in every interleaving the place on record of each copy is the one place where it is |
| `DeliverySteps.EachCopyIsInOnePlace` | src/chat/message_router.cpp:13-74 | a copy, once made, is ever after with a worker that will look, with one that will queue it, queued, drained, handed off, dropped, or passed over if it is for the sender: exactly one of them |
| `DeliverySteps.CopiesAreMade` | src/chat/message_router.cpp:16-51 | a copy is made for the receiver of a direct message and for each member of a room |
| `DeliverySteps.HandedAtMostOnce` | src/chat/message_router.cpp:23-72 | a user other than the sender is handed a message at most once, live and replayed together |
| `DeliverySteps.EchoesGoToSenders` | src/chat/message_router.cpp:31-33 | echoes go to the sender only, and only a sender is passed over |
| `DeliverySteps.NoCopyGoesBack` | src/db/repositories.cpp:639-654 | a copy never vanishes and only moves on: once drained it is never queued or drained again |
| `DeliveryRaces.NothingIsLostUnless` | src/chat/message_router.cpp:63-66 | every copy made in a run is at its end with a worker, queued or handed over, or was for an absent sender, if and only if no replay of the run finds the user gone after draining |
| `DeliveryRaces.SettledUnlessStranded` | src/chat/message_router.cpp:23-25 | a step leaves every online user's queue empty or about to be drained, if and only if it does not queue for a user online with no drain coming |
| `DeliveryRaces.QueuesAreDrainedUnlessStranded` | src/chat/message_router.cpp:23-25 | the same over whole runs |
| `DeliveryRaces.SomeRunDrops` | src/chat/message_router.cpp:62-66 | a run that drops a message |
| `DeliveryRaces.SomeRunStrands` | src/chat/message_router.cpp:23-25 | a run that leaves a message queued for an online user |
| `DeliveryRefinement.HandlersAreSections` | src/chat/message_router.cpp:13-74 | every run of whole handlers is a run of locked sections with the same queues, presence and hand-offs, in which nothing is dropped |
| `Presence.BoundPairs` | src/chat/presence.cpp:5-15 | a bind adds one pair and keeps the others |
| `Presence.UnboundPairs` | src/chat/presence.cpp:17-31 | an unbind removes that pair and no other, also when it drops the slot |
| `Presence.Registry.Bind` | src/chat/presence.cpp:5-15 | reports online exactly for the first connection |
| `Presence.Registry.Unbind` | src/chat/presence.cpp:17-31 | reports offline exactly for the last connection |
| `Presence.Registry.Connections` | src/chat/presence.cpp:33-42 | the bound connections, none exactly if the user is offline |
| `Presence.Registry.IsOnline` | src/chat/presence.cpp:44-47 | online exactly with some connection |
| `Presence.TransitionsAlternate` | src/chat/presence.cpp:5-47 | in any interleaving no slot is empty and each user's transitions alternate, the last one telling the state |
| `RoomCache.RoomManager.EnsureLoaded` | src/chat/room_manager.cpp:8-13 | loads a room once, from the store |
| `RoomCache.RoomManager.MembersOf` | src/chat/room_manager.cpp:15-21 | the cached members after the load |
| `RoomCache.RoomManager.IsMember` | src/chat/room_manager.cpp:23-28 | membership in the cached set after the load |
| `RoomCache.RoomManager.OnJoin` | src/chat/room_manager.cpp:30-34 | adds one user to the loaded room |
| `RoomCache.RoomManager.OnLeave` | src/chat/room_manager.cpp:36-40 | removes one user, from a cached room only |
| `RoomCacheRuns.AgreementIsKeptUnlessOvertaken` | src/chat/room_manager.cpp:30-40 | a step keeps cache and store agreeing on every settled pair if and only if it is not the last cache update of a pair and contrary to the store; a load in progress never reads what will be wrong |
| `RoomCacheRuns.CacheAgreesUnlessOvertaken` | src/chat/room_manager.cpp:8-46 | the same throughout whole runs, for every interleaving of store writes, lazy loads, cache updates and invalidations |
| `RoomCacheRuns.CacheAgreesWithStore` | src/chat/room_manager.cpp:8-46 | if operations on the same room and user never overlap, every loaded room agrees with the store on every pair with no operation in flight, lazy loads in between included |
| `RoomCacheRuns.OverlapBreaksAgreement` | src/handlers/handlers.cpp:183-199 | for every room and user an overlapping join and leave that ends in lasting disagreement |
| `Store.Repositories.CreateUser` | src/db/repositories.cpp:482-490 | a new name gets an unused id and a record with its hash and time, a known one nothing |
| `Store.Repositories.UpdateLastSeen` | src/db/repositories.cpp:492-496 | changes the last-seen time of that user and nothing else |
| `Store.Repositories.CreateRoom` | src/db/repositories.cpp:532-539 | a new name gets an unused id and a record with its time, a known one nothing |
| `Store.Repositories.JoinRoom` | src/db/repositories.cpp:541-546 | adds a member of an existing room and no other |
| `Store.Repositories.LeaveRoom` | src/db/repositories.cpp:548-554 | removes that member only |
| `Store.Repositories.Insert` | src/db/repositories.cpp:580-602 | appends with the next id; earlier messages and their order stay |
| `Store.Repositories.HistoryDm` | src/db/repositories.cpp:604-618 | only messages between the two users below the cursor, oldest first; what is left out is older than the page, and nothing is left out of a page that is not full |
| `Store.Repositories.HistoryRoom` | src/db/repositories.cpp:620-632 | the same for the messages of a room |
| `Store.Repositories.UpdateMessageStatus` | src/db/repositories.cpp:634-637 | changes the status of the one message and nothing else |
| `Store.Repositories.EnqueueUndelivered` | src/db/repositories.cpp:639-642 | appends to that user's queue |
| `Store.Repositories.DrainUndelivered` | src/db/repositories.cpp:644-654 | returns the queued messages in order and empties the queue |
| `Store.Repositories.InsertSession` | src/db/repositories.cpp:503-510 | overwrites the row of the token or appends one |
| `Store.Repositories.DeleteSession` | src/db/repositories.cpp:512-517 | removes every row of the token, keeping the order of the others |
| `Store.StatusUpdateEvolves` | src/db/repositories.cpp:634-637 | a status update leaves ids, senders, receivers, contents and order alone |
| `Messages.History` | src/db/repositories.cpp:604-632 | the backward scan with its early stop returns the last `limit` matches below the cursor |
| `Messages.SelectEvolves` | src/db/repositories.cpp:580-637 | inserts and status updates keep the matches below any cursor, in their places |
| `Messages.PageIs` | src/db/repositories.cpp:604-632 | a page is the newest part of what matches below the cursor |
| `Paging.PagingIsExact` | src/db/repositories.cpp:604-632 | a page is empty if and only if the pages before it, oldest first, are the matching log of the first fetch, each message once |
| `Paging.PagingEnds` | src/db/repositories.cpp:604-632 | there are no more non-empty pages than matching messages |
| `Sessions.SessionManager.Warm` | src/auth/session.cpp:12-23 | the cache gets the unexpired rows |
| `Sessions.SessionManager.Create` | src/auth/session.cpp:25-35 | cache entry and row for the new token, with the same user and time |
| `Sessions.SessionManager.Validate` | src/auth/session.cpp:37-46 | returns the entry if and only if it is cached and has not expired, and removes an expired one |
| `Sessions.SessionManager.Touch` | src/auth/session.cpp:48-55 | moves the cached expiry only |
| `Sessions.SessionManager.Revoke` | src/auth/session.cpp:57-63 | removes entry and rows |
| `Sessions.PutRowIsUpdate` | src/db/repositories.cpp:503-510 | the list of rows behaves as a map from tokens, one row each |
| `Sessions.DropRowsIsRemoval` | src/db/repositories.cpp:512-517 | deleting is removal from that map |
| `Sessions.WarmIsUnexpired` | src/auth/session.cpp:12-23 | warming an empty cache gives exactly the unexpired rows |
| `SessionRuns.ValidationIsSound` | src/auth/session.cpp:25-63 | in every interleaving and over restarts a token validates only for the user it was created for, and never once its revocation has returned |
| `SessionRuns.SessionExpires` | src/auth/session.cpp:12-55 | once the ttl has passed without the token being created or touched it does not validate, whatever else happened, restarts included |
| `SessionRuns.ValidUntilTtl` | src/auth/session.cpp:25-55 | from a creation or touch on, without revocation or restart, a token validates if and only if less than the ttl has passed, for its own user |
| `SessionRuns.RestartAcceptsNoMore` | src/auth/session.cpp:12-63 | a restart accepts a token if and only if its row has not expired, for the same user as before; it accepts one that was not accepted before if and only if it cut short the revocation of a token with such a row |
| `SessionRuns.RestartCanRevive` | src/auth/session.cpp:57-63 | for every token and user, a run in which a restart between the two halves of `revoke` brings the token back |
| `Sha256.Hasher.Compress` | src/auth/crypto.cpp:41-61 | the array loops compute the block function of section 6.2 of RFC 6234 |
| `Sha256.ExpandBlock` | src/auth/crypto.cpp:42-48 | the loop computes the recursive message schedule |
| `Sha256.RunRounds` | src/auth/crypto.cpp:49-58 | the eight rotating variables go through the 64 rounds |
| `Sha256.Hasher.Update` | src/auth/crypto.cpp:63-74 | the object stands for the concatenation of everything fed, whatever the block boundaries |
| `Sha256.Hasher.Finish` | src/auth/crypto.cpp:76-90 | the digest is the fold of the block function over the padded message |
| `Sha256.PaddedOneBlock` | src/auth/crypto.cpp:83-86 | padding as in section 4.1 of RFC 6234 when it fits the block |
| `Sha256.PaddedTwoBlocks` | src/auth/crypto.cpp:77-86 | and when it takes another block |
| `Sha256.BitCount` | src/auth/crypto.cpp:64-64 | the 64-bit counter is the bit count modulo 2^64 |
| `Sha256.HashChunks` | src/auth/crypto.cpp:63-96 | the digest does not depend on how the message is split across updates |
| `Sha256Facts.ConstantsAreCubeRoots` | src/auth/crypto.cpp:12-21 | each round constant is the first 32 bits of the fraction of the cube root of a prime, in order |
| `Sha256Facts.InitialIsSquareRoots` | src/auth/crypto.cpp:36-39 | and the initial state those of the square roots of the first eight |
| `Sha256Facts.ChChooses` | src/auth/crypto.cpp:52-52 | each bit of the first word chooses between the other two |
| `Sha256Facts.MajVotes` | src/auth/crypto.cpp:55-55 | each bit is the majority of three |
| `Sha256Facts.DigestOfAbc` | src/auth/crypto.cpp:41-96 | the digest of "abc" is the one of section 8.5 of RFC 6234 |
| `Pbkdf2.HmacSha256` | src/auth/crypto.cpp:98-117 | equals section 2 of RFC 2104 for every key length |
| `Pbkdf2.HmacOfEmptyKey` | src/auth/crypto.cpp:107-116 | the two pads are 64 bytes 0x5c and 0x36 |
| `Pbkdf2.HmacKeys` | src/auth/crypto.cpp:100-106 | zeros after a short key make no difference and a long key counts as its hash |
| `Bytes.XorAndOrAreBitwise` | src/auth/crypto.cpp:108-183 | the byte operations of the pads, the iteration and the comparison are the bitwise ones |
| `Pbkdf2.DeriveBlock` | src/auth/crypto.cpp:134-145 | the accumulated block is the exclusive-or of the iterates |
| `Pbkdf2.DeriveKey` | src/auth/crypto.cpp:119-152 | equals section 5.2 of RFC 8018 for every password, salt, iteration count and length; 0 iterations act as 1 |
| `Pbkdf2.FirstKeys` | src/auth/crypto.cpp:126-150 | one iteration is one HMAC of the salt and block number 1, two add the exclusive-or with the next, and the second block has number 2 |
| `Pbkdf2.ShorterIsPrefix` | src/auth/crypto.cpp:146-149 | a shorter key is a prefix of a longer one |
| `Pbkdf2.CounterIsExact` | src/auth/crypto.cpp:126-133 | the 4 counter bytes spell the number of every block if and only if there are fewer than 2^32 |
| `Base64.EncodeBytes` | src/common/util.cpp:100-121 | the loop over 24-bit words gives the encoding of section 4 of RFC 4648, padding included |
| `Base64.DecodeText` | src/common/util.cpp:123-146 | the wrapping 32-bit accumulator computes the regrouping of the sextets; any foreign character gives nothing |
| `Base64.RoundTrip` | src/common/util.cpp:100-146 | decoding inverts encoding on every byte string |
| `Base64.SymbolIs` | src/common/util.cpp:97-98 | the alphabet, as a literal |
| `Base64.EncodedLength` | src/common/util.cpp:100-121 | four characters for every three bytes begun, `=` exactly at the end |
| `Base64.EncodesFoo` | src/common/util.cpp:100-121 | tests of section 10 of RFC 4648 |
| `Base64.ReadableIff` | src/common/util.cpp:134-137 | a text decodes to nothing if it holds anything but symbols, padding, line ends and blanks, and is readable otherwise |
| `Base64.NoDollar` | src/common/util.cpp:97-121 | no encoding holds a dollar sign |
| `Password.MakePasswordHash` | src/auth/crypto.cpp:154-165 | the text of iteration count, salt and the key of that count |
| `Password.ParseDecimal` | src/auth/crypto.cpp:159-175 | reading back a written iteration count gives it again |
| `Password.SameBytes` | src/auth/crypto.cpp:182-184 | or-ing the exclusive-ors is zero if and only if the byte strings are equal |
| `Password.VerifyPasswordHash` | src/auth/crypto.cpp:167-185 | accepts if and only if the text has its three fields, neither salt nor key is empty, and the password derives that key |
| `Password.VerifiesMade` | src/auth/crypto.cpp:154-185 | a made text verifies the passwords that derive the same key and no others, for every salt but the empty one |
| `Password.VerifiesParts` | src/auth/crypto.cpp:168-184 | what number, salt and key of a text with two dollar signs must be to verify a password |
| `Password.VerifiesNothing` | src/auth/crypto.cpp:169-172 | nothing verifies against a text without them |

## Left out

- The MySQL half of the repositories and the connection pool: SQL text and a foreign library; its drain is a SELECT and a later DELETE, so the atomic drain here does not speak for it.
- JSON building and parsing, the dispatch table, the command-line client, logger, configuration, socket options, the listening socket.
- System calls, the clock and the random source: results of `recv`, `send`, time, salts and tokens are inputs. In `SessionRuns` tokens are fresh, the ttl stays the same, the clock never goes back, and nobody revokes a token before the call that made it has returned it.
- Hex coding and the read-only listings of rooms, members and presence: they change no state and no other part builds on them.
- The Base64 decode table, which src/common/util.cpp:124-130 fills on first use without a lock: here it is a fixed function, so two workers that decode for the first time at the same moment, one of them seeing a half-filled table, are not modelled.
- Text encoding: names and contents are sequences of characters of one byte each.
- Integer widths: message, user and room ids are unbounded; so are times and expiry. Widths are modelled where they matter: frame lengths, hash words, the bit count, the Base64 accumulator and the iteration count.
- `std::stoul` is taken to be 64 bits wide.
- The order in which hash maps are iterated: a batch names the connections of each user as a set, and `FanOut` holds for every order of the members.
- Delivery and DeliverySteps are stated on values and not on mutable objects, since their subject is every order of steps; so are ThreadPool, the reactors, RoomCacheRuns, SessionRuns and ConnectionRuns.
- Fairness and liveness: waking workers and shutdown progress in the thread pool, posts still pending when an event loop stops, and when a blocked call returns.
- Failure of the reactor's `modify` call and a connection object destroyed without a close.
- Cryptographic strength and timing.
- Server: one object holds what the source spreads over the router, the server and the connections' identity fields, so aliasing between them is not part of the model. Its handlers return the reply that the source sends.
