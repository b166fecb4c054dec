# Verification of the master-client relay

A Dafny model of the relay protocol: the MessagePack codec of its messages, the server's table
of players and event loop, the master/slave client with its threads, and the thread-safe queue
between them. The programs exchange packets of one type byte and a MessagePack map. The server
gives every client that asks a slot number and a role; the first of an empty table is master.
The master keeps the game state, adds every user's inputs to it in ticks and sends it to the
server, which unpacks it and broadcasts the packing to everybody.

## How it is organised

| module | subject |
|---|---|
| Base, MsgPack, MsgPackMinimal | fixed-width integers; a reader for arbitrary nested MessagePack objects and a writer that picks the smallest format ("Formats" and "Serialization: type to format conversion" of the MessagePack specification) |
| Fields | scanning a map for fields with flags, last match wins |
| Protocol, ProtocolTheorems | what the messages are, which bytes stand for them, which bytes are accepted |
| WireFormat, Acceptance | the same in numerals: every byte of the packed messages, what each format byte stands for, and which maps are accepted |
| ProtocolCode | the packers and unpackers as loops over a buffer and over map entries |
| Server, ServerCode | the event loop as a state machine; the heap records and linear scans that implement it |
| ServerOutputs | everything a run of the server sends, from an abstract machine without a table |
| Client, ClientCode | the client with atomic ticks as a state machine; the globals and loops that implement it |
| ClientHistory | a client's state and packets, from the history of its deliveries and ticks |
| System, SystemMarks, SystemSessions, SystemProgress | server and clients joined by a reliable FIFO and lossy streams: identities, what is answered and announced, whole sessions, and what can always be brought about |
| SafeQueue | the linked queue on the heap, one call at a time |
| Threads | every function that takes a mutex or uses the connection as a control graph of single statements; any number of threads, any schedule, spurious wake-ups |
| ThreadsLocking | mutexes, guarded data, deadlock freedom |
| ThreadsQueue, ThreadsWakeup, ThreadsPops | the queue under every schedule: FIFO, memory safety, no leak, no lost wake-up, and that values can be taken |
| ThreadsTicks, ThreadsBounds, ThreadsSent | ticks under every schedule: what a coordinate is, how large it gets, when no tick is lost, what is sent |
| ThreadsProgress, ThreadsCommits, ThreadsMarks | when the effect of a commit, or the mark of a slave, is there to stay |
| ThreadsFaults, ThreadsRuns | where a NULL or dangling pointer can be followed, and concrete runs |
| ThreadsArguments | in every schedule, what is stored, committed and sent stems from the arguments of calls |
| ThreadsAlone, ThreadsAtomic | one call at a time the threads do what the client with atomic ticks does; when they do so interleaved |

Code that changes state step by step is imperative Dafny, proved equal to functions; the
properties are lemmas about those functions and invariants of the state machines.

## What the code does not guarantee

Each point comes with its exact condition and a run in which it happens.

- A tick takes its snapshot, collects the inputs and commits in three critical sections
  (src/client.c:529-564), so a commit can be lost when two ticks overlap
  (`OverlappingTicksLoseInput`). No commit is lost exactly when every commit read the state of the
  commit before it (`NothingLostIffSerial`), which one ticking thread ensures
  (`OneTickerLosesNothing`). The client has two. A single commit is there to stay exactly when it
  is on the current chain and no tick in progress overlooks it (`CommitStaysIffKept`).
- For the same reason the mark that a slave exists can be erased by a tick whose snapshot is older
  (`NewsDuringTickIsLost`), and the server never repeats the news. With
  atomic ticks this cannot happen (`NoSlaveIsForgotten`). A mark is safe exactly when
  no tick in progress misses it (`MarkStaysIffSettled`).
- A thread follows a NULL or dangling pointer in three cases and no others (`FaultsExactly`): a
  tick or an arriving input uses the inputs before they are allocated (`TickDuringInitCrashes`);
  a command uses the connection when there is none or it was destroyed
  (`ExitBeforeConnectCrashes`); a tick sends through a peer that the disconnect command destroyed
  after the tick had read it (`ExitDuringTickCrashes`). The second case needs an exit
  before the first connection, if one thread serves the network (`NetworkThreadFaults`).
  Without the disconnect command nothing crashes once the inputs are allocated
  (`InitialisedNeverCrashes`).
- After its master disconnected, a table has no master until it drains (`OrphanedRun`,
  `MasterlessIffOrphaned`, `NoMasterUntilDrained`).

With one ticking and one network thread, no news between a snapshot and its commit and no new role
under a tick that relies on the old one, the interleaved threads compute what the client with
atomic ticks does (`InterleavingIsAtomic`). Conversely, whatever that client can do, some schedule of
the threads does (`AtomicRunIsASchedule`).

## Where code and documentation disagree

The model follows the code.

- README.md:28 lets slaves apply the master's state; the client only prints it
  (src/client.c:166-182, 367-377).
- README.md:37 says the server does not interpret data; it unpacks and repacks game states
  (src/server.c:338-345). `RelayFixedPoints` says when that leaves the bytes alone.
- README.md:96 says races on ENet are eliminated; packets are handed to ENet, and the connection is
  made and destroyed, under no mutex (`WritesAreGuarded`), so the tick thread, the main thread and
  the network thread can all use it at once (`ThreeThreadsInNetwork`). With one ticking thread
  there is one sender beside the network thread (`OneTickerSendsAlone`).
- README.md:152-155 names the commands x+, x-, y+, y-; the client expects x+1, x-1, y+1, y-1
  (src/client.c:731-734).

## Model

| member | source | states |
|---|---|---|
| MsgPack.ReadExtends | src/protocol_msg.c:303-323 | a verdict of the reader (object, malformed) is not changed by bytes that follow |
| MsgPack.StrictPrefixContinues | src/protocol_msg.c:314-319 | every strict prefix of a complete object, at any nesting depth, reads as incomplete |
| MsgPack.ReadEncoded | src/protocol_msg.c:242-304 | for every packable nested object and every tail, reading the encoding gives the object back and leaves the tail |
| MsgPackMinimal.EncodeIsSmallest | src/protocol_msg.c:248-286 | no bytes the reader accepts for an object are shorter than what the packer writes for it |
| Fields.ScanMeansLastMatch | src/protocol_msg.c:641-692 | the scanning loop finds a value exactly when no matching entry is malformed and the last matching entry holds it |
| Fields.ScanIgnoresOrder | src/protocol_msg.c:641-692 | a field matched at most once does not depend on the order of the entries |
| Fields.ScanIgnoresStrangers | src/protocol_msg.c:641-692 | entries matching no test can be inserted anywhere |
| Protocol.FramingBijection | src/protocol_msg.c:182-237 | accepted packets and pairs of suitable type and payload determine each other |
| ProtocolTheorems.UserInfoRoundTrip | src/protocol_msg.c:239-375 | unpacking a packed user info with any trailing bytes returns it, for every id and role |
| ProtocolTheorems.PlayerInputRoundTrip | src/protocol_msg.c:726-876 | the same for every player input, all 32-bit coordinates of both signs, and reads no undefined memory |
| ProtocolTheorems.GameStateRoundTrip | src/protocol_msg.c:476-724 | the same for every game state with its four nested positions |
| ProtocolTheorems.MessagePrefixesRejected | src/protocol_msg.c:588-607 | every strict prefix of a packed message is incomplete and rejected |
| ProtocolTheorems.RelayPreservesMeaning | src/server.c:338-345 | repacking is the identity on packed states, idempotent on everything accepted, and receivers decode what the server decoded |
| ProtocolTheorems.RelayFixedPoints | src/server.c:181-201 | the relay leaves a payload unchanged exactly when it is a packed game state |
| ProtocolTheorems.TypesAreSeparate | src/protocol_msg.c:365-370 | no packed structure, with any tail, is accepted by the unpacker of another |
| ProtocolTheorems.UserInfoSize | src/protocol_msg.c:239-295 | payloads of user infos have 16 to 20 bytes |
| ProtocolTheorems.PlayerInputSize | src/protocol_msg.c:726-772 | payloads of player inputs have 11 to 23 bytes |
| ProtocolTheorems.GameStateSize | src/protocol_msg.c:476-513 | payloads of game states have 103 to 139 bytes |
| ProtocolTheorems.StateIgnoresOrder | src/protocol_msg.c:641-692 | permuting root entries changes nothing if each test matches at most one |
| ProtocolTheorems.PosIgnoresOrder | src/protocol_msg.c:534-554 | the same for the entries of a position, whose keys match by prefix |
| ProtocolTheorems.UserInfoIgnoresOrder | src/protocol_msg.c:341-363 | the same for user infos |
| ProtocolTheorems.PlayerInputIgnoresOrder | src/protocol_msg.c:824-853 | the same for player inputs |
| ProtocolTheorems.StateIgnoresExtensions | src/protocol_msg.c:641-692 | root entries that match no key can be inserted anywhere |
| ProtocolTheorems.PosIgnoresExtensions | src/protocol_msg.c:534-554 | position entries that begin with no key can be inserted anywhere |
| ProtocolTheorems.StateIgnoresPosLayout | src/protocol_msg.c:657-690 | a position may be replaced by any layout that decodes to the same position |
| ProtocolTheorems.UserInfoIgnoresExtensions | src/protocol_msg.c:341-363 | entries with other keys can be inserted anywhere in a user info |
| ProtocolTheorems.PlayerInputIgnoresExtensions | src/protocol_msg.c:824-853 | entries with other keys can be inserted anywhere in an input |
| ProtocolTheorems.AnyLayoutDecodes | src/protocol_msg.c:575-724 | any bytes in any formats that hold a state's entries, and its positions' entries, in any order with any unknown entries of any kind mixed in decode to the state |
| ProtocolTheorems.AnyLayoutDefined | src/protocol_msg.c:534-554 | no undefined memory is read on the way if the keys added to positions are strings long enough to compare |
| WireFormat.FixedNumbers | src/protocol_msg.c:303-304 | the bytes 0x00 to 0x7f and 0xe0 to 0xff are the numbers 0 to 127 and -32 to -1 |
| WireFormat.FixedValues | src/protocol_msg.c:303-312 | 0xc0 is nil, 0xc2 and 0xc3 are false and true, 0xc1 is a parse error |
| WireFormat.UnsignedFormats | src/protocol_msg.c:303-304 | 0xcc, 0xcd and 0xce announce unsigned numbers of 1, 2 and 4 bytes, most significant first |
| WireFormat.UnsignedLongFormat | src/protocol_msg.c:303-304 | 0xcf announces one of 8 bytes |
| WireFormat.SignedFormats | src/protocol_msg.c:303-304 | 0xd0, 0xd1 and 0xd2 announce two's complement numbers of 1, 2 and 4 bytes, read as positive or negative integers |
| WireFormat.SignedLongFormat | src/protocol_msg.c:303-304 | 0xd3 announces one of 8 bytes |
| WireFormat.StringFormats | src/protocol_msg.c:303-304 | 0xa0 to 0xbf and 0xd9 to 0xdb announce strings with their length |
| WireFormat.BinaryFormats | src/protocol_msg.c:303-304 | 0xc4 to 0xc9 announce binary data and extensions with their length |
| WireFormat.FixedSizeFormats | src/protocol_msg.c:303-304 | 0xca and 0xcb announce floats, 0xd4 to 0xd8 extensions of fixed size |
| WireFormat.CollectionFormats | src/protocol_msg.c:303-304 | 0x80 to 0x9f and 0xdc to 0xdf announce arrays and maps, keys in front of values |
| WireFormat.NumberIsEncoded | src/protocol_msg.c:264 | the exact bytes of every 32-bit number, signed or unsigned |
| WireFormat.PackedBytes | src/protocol_msg.c:239-295 | every packed message in numerals: keys, order of the entries and formats; also 394-513 and 726-772 of that file |
| WireFormat.BytesAreAccepted | src/protocol_msg.c:297-375 | those bytes with any tail unpack to what was packed; also 515-724 and 774-876 of that file |
| WireFormat.ExampleAnswer | src/protocol_msg.c:239-295 | the sixteen bytes that tell the first client it is master |
| WireFormat.ExampleInput | src/protocol_msg.c:726-772 | the eleven bytes of the input y-1 of slave 1 |
| WireFormat.PosKeyIsDecimal | src/protocol_msg.c:453-463 | the key of position n is pos_ and n in decimal digits without leading zeros, for every n |
| WireFormat.TypeBytes | src/protocol_msg.h:16-23 | the type byte is 1 to 5 for the five messages, anything else and the empty packet are refused |
| Acceptance.UserInfoAccepted | src/protocol_msg.c:341-370 | user information is accepted exactly when id and is_master are there, with their last values, modulo 2^32 |
| Acceptance.PlayerInputAccepted | src/protocol_msg.c:824-872 | an input is accepted exactly when id, x and y are there |
| Acceptance.PosAccepted | src/protocol_msg.c:534-568 | a position is accepted exactly when there are keys that begin with is_exists, x and y |
| Acceptance.GameStateAccepted | src/protocol_msg.c:641-717 | a game state is accepted exactly when tick and four positions are there and no entry with the key of a position is malformed |
| ProtocolCode.PackStrFull | src/protocol_msg.c:377-392 | appends exactly the encoding of the string |
| ProtocolCode.TryPackUserInfo | src/protocol_msg.c:239-295 | appends exactly the packing of the user info |
| ProtocolCode.TryPackPlayerInput | src/protocol_msg.c:726-772 | appends exactly the packing of the input |
| ProtocolCode.TryPackPlayerPos | src/protocol_msg.c:394-446 | appends exactly the packing of the position |
| ProtocolCode.PosKeyFits | src/protocol_msg.c:453-463 | no generated key is cut off by the 32-byte buffer |
| ProtocolCode.TryPackPlayerPosCount | src/protocol_msg.c:448-474 | appends the entries pos_1, pos_2, ... in front of the first NULL pointer and fails exactly if there is one |
| ProtocolCode.TryPackGameState | src/protocol_msg.c:476-513 | appends exactly the packing of the game state |
| ProtocolCode.TryUnpackUserInfo | src/protocol_msg.c:297-375 | succeeds exactly on accepted bytes with the decoded value; a failure leaves the caller's structure unchanged |
| ProtocolCode.TryUnpackPlayerInput | src/protocol_msg.c:774-876 | the same wherever only integers are read as integers |
| ProtocolCode.TryUnpackPosEntry | src/protocol_msg.c:534-554 | one entry sets exactly the flags and fields whose names its key begins with |
| ProtocolCode.TryUnpackPlayerPos | src/protocol_msg.c:515-573 | succeeds exactly when all three fields are found, with the last values found |
| ProtocolCode.TryUnpackPositionEntry | src/protocol_msg.c:657-690 | one entry keeps flag and position in step with the scan, or the state is rejected |
| ProtocolCode.TryUnpackGameState | src/protocol_msg.c:575-724 | succeeds exactly on accepted bytes with the decoded state; a failure leaves the caller's structure unchanged |
| ProtocolCode.FramePacket | src/protocol_msg.c:80-118 | one type byte and the buffer, or nothing for an unsuitable type |
| ProtocolCode.TryParseMessageByType | src/protocol_msg.c:182-237 | accepts exactly framed messages; the payload stays NULL when nothing follows the type byte |
| Server.RunKeepsInv | src/server.c:298-400 | in every run peers are distinct and only slot 0 holds a master |
| Server.MasterIsSlotZero | src/server.c:60-75 | at most one player is master and it sits in slot 0 |
| Server.LeastUnusedIsFirstFree | src/server.c:79-96 | the first free slot is the least number no active peer holds; there is one exactly while fewer than ten are active |
| Server.RegisterRefines | src/server.c:203-219 | registration gives the least unused number, changes nothing for an active peer and fails exactly when ten are active |
| Server.RemoveRefines | src/server.c:105-122 | removal deletes exactly the peer from the map |
| Server.RunRefines | src/server.c:298-400 | over every event trace the table is the fold of accepted registrations and disconnects |
| Server.ElectedOnlyFromEmpty | src/server.c:213 | a peer becomes master only by its own registration into an empty table |
| Server.MasterKeepsRole | src/server.c:105-122 | only its own disconnect ends a master's role |
| Server.MasterTenure | src/server.c:298-400 | a master stays master over every stretch of events without its disconnect |
| Server.NoMasterUntilDrained | src/server.c:203-219 | without a master nobody becomes master while the table is not empty |
| Server.MasterlessMeansOrphaned | src/server.c:203-219 | a non-empty table without a master lost it by a disconnect since it was last empty |
| Server.OrphanedMeansMasterless | src/server.c:105-122 | a table whose master disconnected and which was never empty since has no master |
| Server.MasterlessIffOrphaned | src/server.c:203-219 | after every event trace, a non-empty table has no master exactly when its master disconnected since it was last empty |
| Server.OrphanedRun | src/server.c:298-400 | a run in which it happens: two peers register and the first disconnects |
| Server.RelayRouting | src/server.c:338-373 | inputs go unchanged to the unique master or to nobody, states to everybody as the repacking |
| ServerOutputs.RunSends | src/server.c:298-400 | over every event trace the packets sent, byte by byte and in order, and the master are those of a machine that knows only the numbers of active peers and who is master |
| ServerOutputs.AnswersAreDue | src/server.c:203-240 | the answers of a run are exactly one for each registration accepted, to that peer, with its number and role; none for repeated or refused requests |
| ServerOutputs.OnlyPacketsAreAnswered | src/server.c:302-313 | connections and disconnections make the server send nothing |
| ServerCode.RelayServer.constructor | src/server.c:271-277 | ten pointers to an empty record, nobody active |
| ServerCode.RelayServer.IsPlayerActive | src/server.c:29-42 | the scan finds a peer exactly when it holds a slot |
| ServerCode.RelayServer.TryGetPlayerByPeer | src/server.c:44-58 | returns the record of the peer's slot, or nothing when it has none |
| ServerCode.RelayServer.TryGetMasterClient | src/server.c:60-75 | finds a record exactly when there is a master, and then the master's |
| ServerCode.RelayServer.GetActivePlayersCount | src/server.c:124-138 | counts the used slots |
| ServerCode.RelayServer.TryRegisterPlayer | src/server.c:77-103 | a fresh copy of any record in the first free slot, failure exactly on a full table, no record written |
| ServerCode.RelayServer.TryRemovePlayer | src/server.c:105-122 | clears the peer's record in place, leaves all others and the placeholder, fails exactly for unknown peers |
| ServerCode.RelayServer.AnswerRegistration | src/server.c:221-257 | sends the answer to the peer, then the news to the master if the peer is not master and there is one |
| ServerCode.RelayServer.HandlePlayerRegister | src/server.c:203-262 | table and messages are those of the abstract registration |
| ServerCode.RelayServer.RelayGameState | src/server.c:338-347 | broadcasts the packing of what the payload decodes to, nothing if it does not decode |
| ServerCode.RelayServer.HandleMessage | src/server.c:332-378 | table and messages follow the message switch of the state machine |
| ServerCode.RelayServer.HandleEvent | src/server.c:301-398 | one turn of the loop is one step of the state machine and keeps the heap invariant |
| ServerCode.RunServer | src/server.c:298-400 | any run of the loop ends in the state of the state machine with the heap invariant and has sent the fold of its outputs |
| Client.ContentRoundTrip | src/client.c:340-413 | what the server and slaves pack is dispatched as what they meant |
| Client.RunsKeepInvAndExistence | src/client.c:80-163 | over every sequence of ticks and deliveries a master has a state, stored ids stay index + 1, existence flags never revert |
| Client.SerialTickMeaning | src/client.c:537-564 | every coordinate is its start plus, summed per tick, the user's input or the latest delivered input of its slave, in 32-bit arithmetic |
| Client.StoredInputIsLatest | src/client.c:80-109 | the stored input of slave k is the latest one delivered while master |
| Client.InputTouchesOnePosition | src/client.c:80-109 | after an input was delivered, in every continuation it makes no difference but to the coordinates of position id + 1 and the stored input id, for ids 1 to 3, and none at all for other ids |
| Client.InputMovesMarkedPosition | src/client.c:547-559 | the next tick moves position id + 1 by the input, and that is the position the news of slave id marks |
| Client.SlaveTickReachesMaster | src/client.c:184-216 | what a slave's tick sends is read by the receiver as that slave's input |
| ClientHistory.StateIsHistory | src/client.c:80-163 | after any deliveries and ticks a client's whole state (identity, tick number, existence and coordinates of all positions, stored inputs) is a function of that history |
| ClientHistory.TickSendsHistory | src/client.c:511-605 | the packet of the next tick in bytes: nothing without identity, a slave's input under its number, or the master's new state with this tick's number and position 1 |
| ClientHistory.ContentInBytes | src/client.c:340-413 | packets of type 2, 5 and 4 that unpack are own information, news and inputs; everything else says nothing |
| ClientCode.RelayClient.UpdateGamesStateBySlaveInput | src/client.c:80-109 | stores the input of slaves 1 to 3 in place, ignores other ids |
| ClientCode.RelayClient.AttemptInitCurrentGameStateByMaster | src/client.c:111-137 | allocates what is missing and keeps what is there |
| ClientCode.RelayClient.HandleOnSlaveConnected | src/client.c:139-163 | marks the position of slaves 1 to 3, nothing without a state |
| ClientCode.RelayClient.HandleReceive | src/client.c:327-417 | the receive dispatch is the delivery of what the packet says |
| ClientCode.RelayClient.CommitTick | src/client.c:537-564 | the loop over the inputs computes the tick of the state machine |
| ClientCode.RelayClient.HandleCmdSlaveTick | src/client.c:184-216 | the packet is the framed packing of the slave's own input |
| ClientCode.RelayClient.TryExecuteTick | src/client.c:511-605 | state and packet of a tick, and failure exactly when it sends nothing |
| System.ReachKeepsInv | src/server.c:203-257 | in every run each registered client knows its slot and role or has exactly one answer telling them first in line |
| System.BeliefsAreTrue | src/client.c:341-359 | a connected client's id and role are those of its slot |
| System.IdentitiesAreUnique | src/server.c:203-240 | ids of connected clients are distinct and at most one believes it is master |
| System.AnswerIsFirstInLine | src/server.c:234-240 | information about a client itself is on its way only first in line and only until the client holds it |
| SystemSessions.AnsweredOnce | src/server.c:203-240 | over every run a peer is sent at most one answer, and while connected exactly one if it is registered |
| SystemSessions.InfoStays | src/server.c:203-219 | slot and role of a registered peer are the same as long as its session lasts |
| SystemSessions.SlaveInputTravels | src/server.c:348-373 | a slave's input, however late the server takes it, carries the slave's slot number, is put in line for the master of that time and nobody else, and delivered there moves in every continuation only the slave's position |
| SystemSessions.TakenInputTouchesOnePosition | src/client.c:392-405 | the same whenever a client takes an input from the line |
| System.RegisteredLearns | src/server.c:234-240 | a registered client with nothing left on the critical channel knows its identity |
| System.NewsFindsGameState | src/client.c:139-149 | when news of a slave is processed, the receiver is an initialised master; the NULL branch is never taken |
| System.MasterStateTravels | src/client.c:567-598 | the state a tick commits is broadcast byte for byte and decodes to itself |
| SystemMarks.NoSlaveIsForgotten | src/server.c:242-257 | with atomic ticks, a master that has processed its critical messages has every registered slave of slots 1 to 3 marked |
| SystemProgress.CanJoin | src/client.c:477-494 | from every state a new peer can connect, ask and learn its number and role while the table has room |
| SystemProgress.CanLearn | src/server.c:234-240 | so can every connected peer that is registered or whom the table has room for |
| SystemProgress.CanLeave | src/server.c:386-394 | a peer that disconnects gives its slot back |
| SystemProgress.StreamReachesServer | src/server.c:332-378 | whatever a client sends on a stream can be what the server processes next |
| SystemProgress.InputArrives | src/client.c:392-405 | from every state in which a slave and the master know who they are, the slave's input can be ticked, relayed, taken and ticked so that the slave's position moves, x by x and y by y |
| SystemProgress.InputMayBeLost | src/client.c:206-209 | lost before the server took it, the input leaves no trace |
| SystemProgress.InputMayBeLostDownward | src/server.c:364-366 | lost before the master took it, it leaves none with the master |
| SafeQueue.SafeQueue.Push | src/thread_safe/safe_queue.c:4-22 | appends one value; all other nodes stay |
| SafeQueue.SafeQueue.TakeHead | src/thread_safe/safe_queue.c:33-44 | removes and returns the oldest value |
| SafeQueue.SafeQueue.TryPop | src/thread_safe/safe_queue.c:47-65 | the oldest value, or nothing exactly when the queue is empty |
| ThreadsLocking.EveryPathBalances | src/client.c:514-579 | every path, early returns included, takes a mutex only when it holds none and ends holding none |
| ThreadsLocking.OneMutexPerThread | src/client.c:83-162 | in every reachable state a thread holds at most one mutex, and none between functions |
| ThreadsLocking.WritesAreGuarded | src/client.c:53-60 | whoever changes the guarded globals or the queue holds the mutex; packets are sent, and the connection is made and destroyed, under none |
| ThreadsLocking.ReadsAreGuarded | src/client.c:393 | whoever depends on shared data holds its mutex, except one read of the user information when an input arrives and all reads of the connection |
| ThreadsLocking.NoWriteRaces | src/client.c:53-60 | no two threads hold the same mutex |
| ThreadsLocking.DeadlockFree | src/client.c:514-579 | with any number of threads, while any has unfinished work outside an empty-queue wait, some thread can execute a statement |
| ThreadsQueue.LinearizableFifo | src/thread_safe/safe_queue.c:4-65 | in every interleaving the popped values followed by the linked ones are the pushed ones in lock order; nodes are linked once, head to tail |
| ThreadsQueue.QueueMemorySafe | src/thread_safe/safe_queue.c:4-65 | no interleaving follows a dangling pointer or frees a node twice |
| ThreadsQueue.NothingLeaks | src/thread_safe/safe_queue.c:4-65 | in every interleaving each allocated node is linked or in the hands of one thread; between calls exactly the linked nodes are allocated |
| ThreadsWakeup.NoLostWakeup | src/thread_safe/safe_queue.c:10-31 | while a thread sleeps and nobody holds the mutex, the queue is no longer than the number of woken threads yet to recheck |
| ThreadsWakeup.ValueKeepsSomeoneAwake | src/thread_safe/safe_queue.c:25-45 | a non-empty queue with sleepers leaves some thread able to run |
| ThreadsPops.EmptyMeansEmpty | src/thread_safe/safe_queue.c:50-54 | in every interleaving a try-pop gives up, and a pop waits, only on an empty queue |
| ThreadsPops.TakesIffLinked | src/thread_safe/safe_queue.c:50-56 | a thread that looks goes on to take the head exactly when a value is linked |
| ThreadsPops.LookingTakes | src/thread_safe/safe_queue.c:56-58 | from every reachable state in which a thread looks and a value is linked, its next three statements hand it the oldest value |
| ThreadsPops.TryPopAlone | src/thread_safe/safe_queue.c:47-65 | a whole try-pop takes the oldest value, or nothing when none waits |
| ThreadsPops.PopAlone | src/thread_safe/safe_queue.c:25-45 | a whole pop takes the oldest value or falls asleep |
| ThreadsPops.PushAlone | src/thread_safe/safe_queue.c:4-22 | a whole push puts its value behind the others and wakes a sleeper if there is one |
| ThreadsPops.SleeperGetsValue | src/thread_safe/safe_queue.c:10-31 | a value pushed while a thread sleeps on the empty queue can be that thread's |
| ThreadsPops.SpuriousWakeUp | src/thread_safe/safe_queue.c:28-31 | a spurious wake-up on an empty queue leads back to sleep |
| ThreadsPops.PushThenTryPop | src/thread_safe/safe_queue.c:4-65 | a run in which one thread pushes 7 and another pops it |
| ThreadsTicks.ChainSumBound | src/client.c:529-564 | a chain of commits adds at most the bound times its length |
| ThreadsTicks.CoordinateIsChainSum | src/client.c:529-564 | in every interleaving a committed coordinate is the fold of a chain of ticks linked by which commit each snapshot read |
| ThreadsTicks.NothingLostIffSerial | src/client.c:529-564 | no commit is lost exactly when each read the state of the one before |
| ThreadsTicks.LostCommitLeavesNoTrace | src/client.c:562-564 | whatever a commit off the chain added, the state is the same |
| ThreadsTicks.CommittedStateIsChainSum | src/client.c:562-564 | so is every coordinate of the state each commit wrote |
| ThreadsSent.SentStatesAreCommitted | src/client.c:572-592 | every state sent is the whole state of a recorded commit, tick included, with no more than further marks, and its coordinates are the fold of that commit's chain |
| ThreadsArguments.CommitsStemFromTicks | src/client.c:537-560 | in every interleaving a committed state carries the number and the own input of a tick that was called, position 1 exists in it, the others only if announced |
| ThreadsArguments.SentStatesStemFromTicks | src/client.c:572-592 | so does every state sent |
| ThreadsArguments.SentInputsStemFromTicks | src/client.c:184-209 | every input sent has the x and y of a tick that was called and an id that was told, and is what an atomic tick with them sends |
| ThreadsArguments.StoredStemsFromCalls | src/client.c:80-163 | identity, inputs and marks stored are those that were delivered |
| ThreadsArguments.PoppedStemsFromPushes | src/thread_safe/safe_queue.c:4-65 | every value popped was the argument of a push |
| ThreadsBounds.PositionBound | src/client.c:529-564 | with inputs in [-B, B] a coordinate is at most B times the commits, under every interleaving |
| ThreadsBounds.NoSignedOverflow | src/client.c:540-559 | no addition of a tick overflows while B times one more commit stays below 2^31 |
| ThreadsBounds.OneTickerLosesNothing | src/client.c:648-677 | if one thread ticks, every coordinate is the sum of all commits, whatever the network thread interleaves |
| ThreadsBounds.OneTickerSendsAlone | src/client.c:648-677 | if one thread ticks and one serves the network, only the ticking thread is ever about to send a tick and only the network thread uses the connection beside it |
| ThreadsCommits.CommitStaysIffKept | src/client.c:529-564 | the effect of a commit is in the state in every continuation exactly when it is now and no tick between its snapshot and its commit overlooks it |
| ThreadsFaults.FaultsExactly | src/client.c:546-548 | in every interleaving a thread follows a NULL or dangling pointer exactly when it uses the inputs before their allocation, the connection while there is none or after it was destroyed, or sends through a peer destroyed since it was read |
| ThreadsFaults.StateIsThereToSend | src/client.c:572-577 | in no interleaving does a master find no game state to send after its commit |
| ThreadsFaults.InitialisedNeverCrashes | src/client.c:121-136 | without the disconnect command, no interleaving crashes once the inputs are allocated |
| ThreadsFaults.NetworkThreadFaults | src/client.c:218-236 | with one network thread, that thread uses a missing or destroyed connection exactly in a disconnect command before the first connection was made |
| ThreadsRuns.OverlappingTicksLoseInput | src/client.c:529-564 | for any two inputs a run of two overlapping ticks ends as if the first had not happened |
| ThreadsRuns.TickDuringInitCrashes | src/client.c:111-137 | a run in which a tick overlaps initialisation and crashes |
| ThreadsRuns.ExitBeforeConnectCrashes | src/client.c:218-225 | a run in which the disconnect command follows the NULL peer |
| ThreadsRuns.ExitDuringTickCrashes | src/client.c:232 | a run in which a tick sends through the peer just destroyed, with everything else allocated |
| ThreadsRuns.ThreeThreadsInNetwork | src/client.c:587-592 | a run in which two ticks and the network thread are about to use the same connection |
| ThreadsProgress.RunToCommit | src/client.c:537-564 | in an initialised client a tick that has its snapshot can always be run to its commit, with that snapshot as parent |
| ThreadsMarks.MarkStaysIffSettled | src/client.c:151-162 | on an initialised master a slave's mark survives every continuation exactly when it is set and no tick in progress misses it |
| ThreadsMarks.NewsDuringTickIsLost | src/client.c:151-162 | a run in which the mark of slave 1 is set and erased |
| ThreadsAtomic.RunSimulates | src/client.c:511-605 | after every undisturbed run the atomic client, stepped by the deliveries and ticks of the run, holds the shared data with commits and initialisations under way counted as done |
| ThreadsAtomic.InterleavingIsAtomic | src/client.c:511-605 | with none under way, the shared data of such a run is that of the atomic client after the run's events |
| ThreadsAlone.TickAlone | src/client.c:511-605 | a whole tick run while no other thread moves does what the atomic tick does and sends its packet, in all four outcomes |
| ThreadsAlone.FrameAlone | src/client.c:656-674 | a turn of the frame loop ticks exactly when the client has its identity |
| ThreadsAlone.DeliveryAlone | src/client.c:340-413 | a whole delivery run alone is the atomic delivery |
| ThreadsAlone.AllocationFails | src/client.c:121-129 | when the inputs cannot be allocated a new master gets the game state only |
| ThreadsAlone.AtomicRunIsASchedule | src/client.c:511-605 | every run of the atomic client, with the same data and the same packets, is one of the schedules of the threads |
| ThreadsAlone.ConnectAlone | src/client.c:433-468 | connecting replaces the connection, and does nothing after the disconnect command |
| ThreadsAlone.ConnectFails | src/client.c:245-308 | a failed attempt to connect changes nothing |
| ThreadsAlone.DisconnectAlone | src/client.c:218-236 | the disconnect command destroys the connection and marks it as gone for good |

## Left out

- TryUnpackPlayerInput: says nothing about the result where the C code reads an object that is no integer as one (src/protocol_msg.c:845-849); only that a failure changes nothing.
- TryUnpackPlayerPos: says nothing about the result for keys that are no strings or are shorter than a name they begin, where the C code reads past the key (src/protocol_msg.c:537-538), or for coordinates that are no integers.
- TryUnpackPosEntry: the same, entry by entry.
- TryUnpackPositionEntry: the same for the position in the entry.
- TryUnpackGameState: the same for its position entries; a failure changes nothing in any case.
- HandleMessage: the same for received game states; the table is described in any case, also in HandleEvent, RunServer, HandleReceive and RelayGameState.
- TryRegisterPlayer: promises the heap invariant only for records that, if they exist, are connected and have a peer, as its only caller builds them.
- StateIgnoresOrder: like all statements about the decoding functions, takes 0 for a coordinate that is no integer, where the C code reads whatever the union holds; so do PosIgnoresOrder, RelayPreservesMeaning and the runs of the module System.
- The module System keeps packets on their way to a client as what the unpackers' specification reads in them; a peer is one session, and a later connection is a new peer.
- NoLostWakeup: counts threads at single statements; fairness of the scheduler is not modelled, so nothing says when a woken thread runs.
- MarkStaysIffSettled: before the inputs are allocated only one half holds: for the other half, a tick that misses the mark must be able to reach its commit, which depends on another thread still allocating the inputs.
- InterleavingIsAtomic: for runs in which the inputs can be allocated and the two kinds of disturbance do not occur; NewsDuringTickIsLost is a run with one of them.
- TickAlone: like the other statements about whole calls, starts in a state in which no thread holds a mutex.
- Connections are numbered and a number is never used again, as an address might be; CLIENT_HOST and CLIENT_PEER are set, and cleared, in one step (src/client.c:233-234, 310-311).
- What a live connection does, waiting for a connection or its end, and a host left behind by a second connect command or a failed attempt.
- ENet, sockets, host lookup, time-outs, flushing and sending errors: sends to connected peers succeed.
- msgpack-c itself beyond the byte format: memory failures, its nesting limit, error strings.
- Failing allocations other than that of the inputs, leaks, and the contents of freed memory.
- The placeholder pointers to a dead loop variable (src/server.c:273-277) are one empty record that lives on.
- Signed overflow of coordinates wraps to 32 bits in the model; NoSignedOverflow says when it cannot happen.
- Freeing the old user information and allocating the new one is one step; unprotected reads whose result is only printed or unused (src/client.c:167-168, 336) are no steps.
- The interleaved model takes each statement between lock operations as one step: a tick reads CLIENT_PEER before it follows it, every other use (src/client.c:480-489) reads and follows it at once. Any thread may run any of the functions.
- The obsolete sender (src/server.c:142-178), printing, the command line, sleeping, frame pacing, and the link from a popped command to the function it starts: the model allows every order of commands.
- The `index` field of a player record, which is only logged (src/server.c:328).
