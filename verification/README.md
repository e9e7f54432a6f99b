# The peer-to-peer layer of the Concordium node, in Dafny

A model of the Rust node's networking layer, with proofs of what it is meant to guarantee over
whole runs. Each core file is modelled in its own form: objects that are updated in place are
classes whose methods are proved against functions on values, and the theorems about runs are
lemmas about those functions.

| files | what they model |
|---|---|
| `Noise`, `Framing`, `LowLevel` | the framed, encrypted byte channel of one connection: chunked encryption, in-place decryption, the shared socket buffer, partial reads and writes, the order of work in a poll round |
| `Consensus`, `CatchUp`, `PeerList`, `CatchUpRuns`, `CatchUpQueue` | the catch-up list, shared by the poll thread and the thread of inbound consensus messages, and what its queue holds |
| `Connections`, `ConnectionHandler`, `ConnectionRuns`, `ConnectionEffects` | candidates, established connections, queued changes, the gauge of connected peers and the store of peers |
| `Dedup`, `Relay`, `Flooding`, `FloodingLimits`, `FloodingReach` | deduplication of broadcasts, the choice of recipients, and what follows for a whole network |
| `Scheduler`, `QueueWorker` | the workers that drain a high- and a low-priority queue |
| `Latency`, `Handshake`, `TrimmedMean` | the ping-pong latency estimate, the checks made on a handshake, and the collector backend's average |

`dafny verify dfyconfig.toml` checks everything.

## Main results

- **Channel.** Two ends of a link, taking poll rounds in any order while any part of the written
  bytes arrives at any time: at every moment each has handed on exactly the completely arrived
  messages of the other, in order (`LowLevel.Converse`, `LowLevel.EndToEnd`). Messages arrive as
  sent if and only if each has 1 to 20,966,384 bytes (`Framing.DeliveredIffTransmissible`). The
  exchange ends early only if a socket fails, a message is refused or one is outside the limits. No
  write ever happens while the shared buffer holds unread input, and what a connection sends over
  a whole run is a function of what it is given (`LowLevel.Connection.Run`).
- **Catch-up.** In every interleaving the peers marked as catching up are exactly the one in the
  slot, and no pending peer is forgotten (`CatchUpRuns.ReachableConsistent`); the object itself
  goes through such interleavings (`PeerLists.PeerList.Interleave`). A peer at position k of the
  queue is picked by one of the next k + 1 selections (`CatchUpRuns.WaitingPeerIsPicked`), and so
  is every peer that has reported that we are behind it (`CatchUpRuns.BehindIsPicked`). The
  queue holds the pending peers and nothing else, at every moment of a run, if and only if two
  named kinds of steps do not occur in it (`CatchUpQueue.RunExact`).
- **Connection table.** From any store of peers, every established connection has completed its
  handshake, whatever stale, repeated or lost requests the change queue holds
  (`ConnectionRuns.EstablishedHaveIds`); a driver on the object lists the peers after every step
  of any run (`ConnectionHandlers.ConnectionHandler.Drive`). The gauge is right if and only if no
  connection has handled a second handshake (`ConnectionRuns.GaugeExact`). External addresses stay
  distinct and stored if and only if no step does one of two named things
  (`ConnectionRuns.ExternalsThroughout`), and a concrete run shows one of them
  (`ConnectionRuns.RepeatedHandshakeBreaks`). Until its ban is lifted, nobody new comes in from
  the ip of an expelled connection (`ConnectionEffects.ExpelledStaysOut`).
- **Flooding.** A run that loses and drops nothing carries every payload that consensus accepts to
  every node that can be reached (`FloodingReach.FloodingReachesAll`). And it ends: two protections each bound the number of deliveries of a run by themselves: the
  payloads fit the deduplication queues, whatever consensus answers (`Flooding.FloodingEnds`); or
  no node accepts a payload twice, however many there are (`Flooding.FloodingEndsByAnswers`).
  Consensus provides the second by answering that a known block is a duplicate
  (concordium-consensus/src/Concordium/KonsensusV1/Consensus/Blocks.hs:136-144). Only where both
  are missing - one payload too many and a consensus layer that accepts a known block again - can
  three nodes pass payloads around without bound (`FloodingLimits.FloodingNeedNotEnd`).
- **Workers.** A low-priority message with k others before it waits for at most (k + 1)·N + 1
  high-priority ones (`Scheduler.WaitingIsBounded`), and every pass of the real loop is a run of
  the machine this is proved for (`QueueWorkers.QueueWorker.Work`).

## Where code and comments differ

- The comment on `next_pending` (concordium-node/src/consensus_ffi/catch_up.rs:62-65) says that the
  queue should only hold pending peers. `CatchUpQueue.StaleAfterSuccess` and
  `CatchUpQueue.StaleAfterDisconnect` are runs that leave other entries in it, and
  `CatchUpQueue.StepExact` and `CatchUpQueue.RunExact` say exactly which steps do. The model
  follows the code.
- `relay_broadcast_percentage` is the percentage of peers to relay broadcasts to
  (concordium-node/src/configuration.rs:1007-1011). Below 1.0 the code chooses that many peers and
  then skips them, and the peers not to relay to are forgotten
  (concordium-node/src/p2p/connectivity.rs:201-216). `Relay.BelowFullRelaying` says whom a
  broadcast reaches, `Relay.ExclusionsHonoured` exactly when exclusions hold nevertheless, and
  `Relay.SentBackToItsSource` is an input at which they do not. `Flooding` is about full relaying.
- `read_from_socket` resets an exhausted buffer (concordium-node/src/connection/low_level.rs:330-332).
  The buffer invariant shows that this branch is never taken after the handshake; the model
  asserts that instead.

## Model

| member | source | states |
|---|---|---|
| Noise.ShiftCipherIsLawful | concordium-node/src/connection/low_level.rs:490-507 | the promises assumed of the session library can be kept: one concrete cipher keeps them |
| Noise.ChunkCountsAgree | concordium-node/src/connection/low_level.rs:463-474 | sender and receiver count the same chunks for every length, so their counters stay together |
| Noise.SealChunksLength | concordium-node/src/connection/low_level.rs:590-604 | the length written into the header is the number of encrypted bytes that follow it |
| Noise.OpenUndoesSeal | concordium-node/src/connection/low_level.rs:463-507 | opening chunk by chunk gives back every plaintext, whatever its number of chunks |
| Noise.SealedLenIncreases | concordium-node/src/connection/low_level.rs:591-602 | the encrypted length is strictly increasing in the plaintext length |
| Noise.InPlaceIsOpenChunks | concordium-node/src/connection/low_level.rs:463-507 | writing plaintext back into the message being decrypted never reaches ciphertext still to be read: the result is that of opening into fresh buffers |
| Noise.DecryptInPlace | concordium-node/src/connection/low_level.rs:463-486 | in-place decryption succeeds exactly when every chunk opens, and then leaves exactly the plaintext at the front of the message |
| Noise.DecryptChunk | concordium-node/src/connection/low_level.rs:490-507 | one chunk: what is opened, where its plaintext goes, and that nothing else of the message changes |
| Framing.HeaderRoundTrip | concordium-node/src/connection/low_level.rs:602 | the big-endian header (read back at 376-377) announces the length, reduced to 32 bits |
| Framing.HeaderIsBigEndian | concordium-node/src/connection/low_level.rs:602 | the header has the most significant byte first: the first differing byte of two headers tells which length is smaller |
| Framing.SealedWithinLimit | concordium-node/src/connection/low_level.rs:380-399 | the encrypted length is non-zero and within 20 MiB exactly for plaintexts of 1 to 20,966,384 bytes |
| Framing.AcceptedSizes | concordium-node/src/connection/low_level.rs:367-407 | the receiver's size checks on the header it gets accept exactly those plaintexts |
| Framing.StreamOfConcat | concordium-node/src/connection/low_level.rs:590-615 | the stream of two message lists is the one followed by the other under the counter reached |
| Framing.FeedSplit | concordium-node/src/connection/low_level.rs:329-363 | receiving two pieces one after the other is receiving them at once |
| Framing.FeedReads | concordium-node/src/connection/low_level.rs:329-363 | no cutting of the stream into reads makes a difference to what is received |
| Framing.FeedFrame | concordium-node/src/connection/low_level.rs:413-459 | one frame delivers exactly its message and leaves both counters together |
| Framing.FeedStream | concordium-node/src/connection/low_level.rs:329-459 | the stream of any list of messages within the limits is received as exactly that list |
| Framing.FeedPrefix | concordium-node/src/connection/low_level.rs:329-459 | after any prefix of the stream, exactly the messages whose frames lie in it have been delivered, and nothing has failed |
| Framing.FeedUntransmissible | concordium-node/src/connection/low_level.rs:380-399 | the first message that is empty or too long ends the connection, after all before it were delivered |
| Framing.DeliveredIffTransmissible | concordium-node/src/connection/low_level.rs:367-407 | messages arrive as sent if and only if each has 1 to 20,966,384 bytes |
| LowLevel.ReadSocket | concordium-node/src/connection/low_level.rs:336-349 | the socket hands over any non-empty part that fits, in order; only after the last byte it would block, is closed or fails, as the round says |
| LowLevel.WriteSocket | concordium-node/src/connection/low_level.rs:566-574 | the socket takes any non-empty part of what it is offered as long as it has room; only then it would block, takes nothing or fails, as the round says |
| LowLevel.Connection.constructor | concordium-node/src/connection/low_level.rs:156-193 | a fresh connection satisfies all invariants |
| LowLevel.Connection.ScratchIsHarmless | concordium-node/src/connection/low_level.rs:547-566 | with nothing unread, writing into the shared buffer keeps the invariant of the input side |
| LowLevel.Connection.AllConsumed | concordium-node/src/connection/low_level.rs:329-363 | once the buffer is empty, the messages handed on are those in the bytes received |
| LowLevel.Connection.Shift | concordium-node/src/connection/low_level.rs:78-84 | the first unread bytes are taken out, none is lost, and an empty buffer starts at offset zero again |
| LowLevel.Connection.AttemptToReadLength | concordium-node/src/connection/low_level.rs:367-407 | the length bytes are collected as the byte-at-a-time receiver would, and it fails only where that receiver breaks off |
| LowLevel.Connection.ProcessIncomingMsg | concordium-node/src/connection/low_level.rs:413-459 | received and pending bytes add up to the announced length; a complete message is delivered as the byte-at-a-time receiver would |
| LowLevel.Connection.Decrypt | concordium-node/src/connection/low_level.rs:463-486 | decryption is chunk-by-chunk opening under the counters that follow the current one |
| LowLevel.Connection.ReadFromSocket | concordium-node/src/connection/low_level.rs:329-363 | no byte read is lost or reordered and the buffer is refilled only when empty; would-block, closed and socket failure are each reported exactly if the socket says so with nothing left, a protocol failure only where the byte-at-a-time receiver breaks off; every other call makes progress |
| LowLevel.Connection.ProcessMessage | concordium-node/src/connection/mod.rs:513-545 | what is sent in reaction to a message waits behind what waited before |
| LowLevel.Connection.ReadStream | concordium-node/src/connection/mod.rs:501-510 | reading goes on until nothing is left to read, and how it ends is what the socket says then, unless the bytes or a refused message end it before; the queues have grown by exactly the reactions to the messages delivered |
| LowLevel.Connection.StageBatch | concordium-node/src/connection/low_level.rs:557-565 | copying from the two slices of the ring buffer stays in bounds and stages the front of the queue, wherever the slices meet |
| LowLevel.Connection.FlushSocketOnce | concordium-node/src/connection/low_level.rs:547-585 | bytes written followed by bytes queued stay the bytes enqueued; something is written exactly if there is room, it fails exactly if the socket does, and the connection stops being writable exactly if the socket would block |
| LowLevel.Connection.FlushSocket | concordium-node/src/connection/low_level.rs:531-543 | the loop ends, loses nothing, fails only if the socket does, does nothing unless writable, and otherwise leaves the queue empty or the socket without room |
| LowLevel.Connection.EncryptChunk | concordium-node/src/connection/low_level.rs:621-632 | the next chunk is sealed under the current counter and queued |
| LowLevel.Connection.EnqueueChunks | concordium-node/src/connection/low_level.rs:604-615 | all chunks are queued in order; something is written early once enough is queued and there is room; it fails only if the socket does |
| LowLevel.Connection.EncryptAndEnqueue | concordium-node/src/connection/low_level.rs:590-617 | exactly the frame of the message is enqueued |
| LowLevel.Connection.SendPendingMessages | concordium-node/src/connection/mod.rs:727-750 | all waiting messages are encrypted, high priority first and each queue in order |
| LowLevel.Connection.BeginRound | concordium-node/src/connection/low_level.rs:513-517 | a writable event lets the connection write again and changes nothing else |
| LowLevel.Connection.WriteEvents | concordium-node/src/p2p/connectivity.rs:255-276 | the write half of a round keeps both sides' invariants and gets everything written that the socket has room for |
| LowLevel.Connection.ProcessEvents | concordium-node/src/p2p/connectivity.rs:255-293 | a round writes before it reads, never writes over unread input, sends what waited, leaves exactly the reactions to what arrived waiting, and gets everything written that the socket has room for |
| LowLevel.Connection.Run | concordium-node/src/p2p/connectivity.rs:248-293 | in every run of rounds up to a read error, no write happens while the shared buffer holds unread input; without errors, all that is sent, waits and is received is a function of what the rounds bring; every error is traced to a failing socket, a refused message or bytes that break the protocol |
| LowLevel.EndToEnd | concordium-node/src/connection/low_level.rs:329-632 | whatever part of one end's bytes has arrived at the other, in whatever pieces, what has been handed on is exactly what has arrived completely |
| LowLevel.NeverBroken | concordium-node/src/connection/low_level.rs:380-399 | no part of a stream of messages within the limits makes the receiver break off |
| LowLevel.NewLink | concordium-node/src/connection/low_level.rs:156-193 | any two ends with a common session start linked |
| LowLevel.TakeTurn | concordium-node/src/p2p/connectivity.rs:255-293 | a round of one end, fed with bytes the other has written, keeps both ends linked, and breaks off only on a message outside the limits |
| LowLevel.LinkDelivers | concordium-node/src/connection/low_level.rs:329-632 | linked ends have handed on exactly what has arrived completely, and everything once all is written and read |
| LowLevel.Converse | concordium-node/src/p2p/connectivity.rs:248-293 | any interleaving of rounds of two ends keeps them linked, so the former holds at every moment and in both directions; what each end has sent and received is that of its rounds; it ends early only if a socket fails, a message is refused or one is outside the limits |
| CatchUp.NextPendingConsistent | concordium-node/src/consensus_ffi/catch_up.rs:66-81 | selecting with an empty slot keeps the list consistent |
| CatchUp.NextPendingEffect | concordium-node/src/consensus_ffi/catch_up.rs:66-81 | a selection takes the first really pending peer of the queue with all entries before it, and changes no other peer |
| CatchUp.TryCatchUpEffect | concordium-node/src/plugins/consensus.rs:369-393 | the selected peer is being caught up with since now, or is forgotten if the request could not be sent |
| CatchUp.MarkAllPendingEffect | concordium-node/src/consensus_ffi/catch_up.rs:84-91 | all up-to-date peers become pending and are queued, and no other peer changes |
| CatchUp.UpdatePeerStatesEffect | concordium-node/src/plugins/consensus.rs:437-533 | for every packet type, mode and answer: the new status of the sender, when it joins the queue and when the slot is emptied; no other peer changes |
| CatchUp.TryCatchUpConsistent | concordium-node/src/plugins/consensus.rs:369-393 | so does an attempt to catch up, whether or not the request can be sent |
| CatchUp.MarkAllPendingConsistent | concordium-node/src/consensus_ffi/catch_up.rs:84-91 | so does marking all peers as pending, in any order |
| CatchUp.ForgetConsistent | concordium-node/src/plugins/consensus.rs:341-357 | forgetting peers keeps the list consistent, and from any list the number of new peers does not underflow |
| CatchUp.UpdatePeerListCorrect | concordium-node/src/plugins/consensus.rs:341-366 | a refresh makes the known peers exactly the given ones, keeps the status of known peers, adds the others as pending and keeps the list consistent |
| CatchUp.UpdatePeerStatesConsistent | concordium-node/src/plugins/consensus.rs:437-533 | every message and every answer keeps the list consistent |
| PeerLists.PeerList.Next | concordium-node/src/consensus_ffi/catch_up.rs:66-81 | the loop drops entries up to the first really pending peer and puts that one into the slot |
| PeerLists.PeerList.MarkAll | concordium-node/src/consensus_ffi/catch_up.rs:84-91 | exactly the up-to-date peers become pending and each is queued once, in the order of the map |
| PeerLists.PeerList.Update | concordium-node/src/plugins/consensus.rs:341-366 | the in-place refresh is the refresh on values, from every list, and keeps it consistent |
| PeerLists.PeerList.Try | concordium-node/src/plugins/consensus.rs:369-393 | the in-place attempt is the one on values |
| PeerLists.PeerList.DropAndTry | concordium-node/src/plugins/consensus.rs:424-431 | a peer whose connection is gone is dropped and the next one tried |
| PeerLists.PeerList.CheckSlot | concordium-node/src/plugins/consensus.rs:411-434 | a connected peer is left alone, one that is gone is dropped, and with nobody in the slot the next is tried: each a step of the machine |
| PeerLists.PeerList.Act | concordium-node/src/plugins/consensus.rs:341-533 | each locked section of either thread is an enabled step of the machine and keeps its invariant |
| PeerLists.PeerList.Interleave | concordium-node/src/plugins/consensus.rs:341-533 | any number of sections in any order is a legal run, and the list is consistent after it |
| CatchUpRuns.StepKeepsInv | concordium-node/src/plugins/consensus.rs:396-435 | every locked section of either thread keeps the list consistent and the snapshot of the slot usable |
| CatchUpRuns.RunKeepsInv | concordium-node/src/plugins/consensus.rs:341-533 | so does every interleaving of such sections |
| CatchUpRuns.ReachableConsistent | concordium-node/src/plugins/consensus.rs:341-533 | in every reachable state the peers catching up are exactly the one in the slot, and every pending peer is in the queue |
| CatchUpRuns.NextPendingAdvances | concordium-node/src/consensus_ffi/catch_up.rs:66-81 | a selection picks the waiting peer or brings it nearer to the front |
| CatchUpRuns.RefreshAdvances | concordium-node/src/plugins/consensus.rs:349-365 | a refresh never moves a waiting peer back |
| CatchUpRuns.StepAdvances | concordium-node/src/plugins/consensus.rs:349-528 | no step moves a waiting peer back, and every selection that passes it over moves it forward |
| CatchUpRuns.RunAdvances | concordium-node/src/plugins/consensus.rs:349-528 | over a run, a peer that is not picked moves forward by at least the number of selections |
| CatchUpRuns.WaitingPeerIsPicked | concordium-node/src/consensus_ffi/catch_up.rs:66-91 | a pending peer at position k is picked by one of the next k + 1 selections |
| CatchUpRuns.BehindIsPicked | concordium-node/src/plugins/consensus.rs:456-528 | a peer whose message says that we are behind is picked by one of the next selections, at most one more than the queue had entries |
| CatchUpQueue.DropPendingExact | concordium-node/src/plugins/consensus.rs:424-431 | dropping a pending peer leaves an exact queue if and only if it was the first |
| CatchUpQueue.UpdatePeerListExact | concordium-node/src/plugins/consensus.rs:341-366 | a refresh leaves an exact queue exact |
| CatchUpQueue.MarkAllPendingExact | concordium-node/src/consensus_ffi/catch_up.rs:84-91 | so does marking all peers as pending |
| CatchUpQueue.InboundExact | concordium-node/src/plugins/consensus.rs:437-533 | a message leaves it exact if and only if it is not a catch-up status of a pending peer answered with success |
| CatchUpQueue.StepExact | concordium-node/src/consensus_ffi/catch_up.rs:60-81 | a step of either thread leaves it exact if and only if it is neither of the two kinds that leave an entry behind |
| CatchUpQueue.RunExact | concordium-node/src/consensus_ffi/catch_up.rs:60-81 | in a run the queue holds each pending peer once and nothing else at every moment if and only if no such step occurs |
| CatchUpQueue.StaleAfterSuccess | concordium-node/src/plugins/consensus.rs:449-455 | a run of two steps after which an up-to-date peer is in the queue |
| CatchUpQueue.StaleAfterDisconnect | concordium-node/src/plugins/consensus.rs:424-431 | a run of six steps after which a peer that is gone is in the queue |
| Connections.AcceptKeepsInv | concordium-node/src/p2p/connectivity.rs:372-446 | accepting a connection keeps tokens fresh, handshakes recorded, remote addresses distinct and the gauge exact up to repeated handshakes |
| Connections.ConnectKeepsInv | concordium-node/src/p2p/connectivity.rs:450-545 | dialling out keeps them, and touches neither established connections nor the store |
| Connections.ConnectAllKeepsInv | concordium-node/src/p2p/maintenance.rs:823-848 | so does dialling any number of discovered peers |
| Connections.RegisterKeepsInv | concordium-node/src/p2p/maintenance.rs:483-487 | so does asking for a change, also when the request is lost |
| Connections.HandshakeKeepsInv | concordium-node/src/connection/mod.rs:548-569 | so does a handshake on any live connection, the first or a later one |
| Connections.RemoveConnectionKeepsInv | concordium-node/src/p2p/connectivity.rs:149-165 | so does closing a connection, which leaves all others and the store alone |
| Connections.RemoveConnectionsKeepInv | concordium-node/src/p2p/connectivity.rs:168-189 | so does closing any list of connections |
| Connections.PromoteKeepsInv | concordium-node/src/p2p/maintenance.rs:798-822 | so does a promotion, because only connections past their handshake ask for one |
| Connections.ApplyKeepsInv | concordium-node/src/p2p/maintenance.rs:783-892 | so does processing any queued change, however stale |
| ConnectionHandlers.ConnectionHandler.AcceptIncoming | concordium-node/src/p2p/connectivity.rs:372-446 | a connection is accepted exactly if nothing stands in its way, as a candidate under a fresh token |
| ConnectionHandlers.ConnectionHandler.ConnectTo | concordium-node/src/p2p/connectivity.rs:450-545 | the in-place dialling is the one on values, with a soft ban for unreachable nodes, and keeps the table invariant |
| ConnectionHandlers.ConnectionHandler.Remove | concordium-node/src/p2p/connectivity.rs:149-165 | the connection is closed wherever it is, and reported with whether it was established |
| ConnectionHandlers.ConnectionHandler.RemoveMany | concordium-node/src/p2p/connectivity.rs:168-189 | all listed connections are closed and exactly the established ones' addresses collected, also with repeated tokens |
| ConnectionHandlers.ConnectionHandler.ProcessConnChange | concordium-node/src/p2p/maintenance.rs:783-892 | the in-place processing of a change is the one on values, for every kind of change, and keeps the table invariant |
| ConnectionHandlers.ConnectionHandler.ConnectMany | concordium-node/src/p2p/maintenance.rs:823-848 | peers are dialled in order until enough nodes are connected to |
| ConnectionHandlers.ConnectionHandler.GetPeerStats | concordium-node/src/p2p/peers.rs:23-38 | under the table invariant the id can be unwrapped for every established connection; each peer, or each of one type, is listed once |
| ConnectionHandlers.ConnectionHandler.constructor | concordium-node/src/p2p/maintenance.rs:128-160 | a node starts with an empty table that satisfies the invariant, whatever peers are stored |
| ConnectionHandlers.ConnectionHandler.Perform | concordium-node/src/p2p/maintenance.rs:623-780 | each step of the poll loop, its readers and other threads, on the object, is the one on values and keeps the invariant |
| ConnectionHandlers.ConnectionHandler.Drive | concordium-node/src/p2p/maintenance.rs:623-780 | the object goes through the states of any legal run, and the peers can be listed, with every id unwrapped, after each step |
| ConnectionRuns.StepKeepsInv | concordium-node/src/p2p/maintenance.rs:783-892 | every step of the poll loop, its readers and other threads keeps the table invariant |
| ConnectionRuns.RunKeepsInv | concordium-node/src/p2p/maintenance.rs:623-780 | so does every run from any store of peers |
| ConnectionRuns.EstablishedHaveIds | concordium-node/src/p2p/peers.rs:23-38 | in every reachable state every established connection has completed its handshake |
| ConnectionRuns.AtMostOneConnectionTo | concordium-node/src/p2p/connectivity.rs:372-545 | there is at most one live connection per remote address, and per ip if so configured |
| ConnectionRuns.RepeatsCounted | concordium-node/src/connection/mod.rs:548-569 | the recorded number of repeated handshakes is the one found in the run |
| ConnectionRuns.GaugeExact | concordium-node/src/connection/mod.rs:755-762 | the gauge equals the number of live post-handshake connections if and only if the run has no repeated handshake |
| ConnectionRuns.GreetingExternals | concordium-node/src/connection/mod.rs:548-569 | a handshake keeps external addresses distinct and stored exactly if it is on a candidate or announces a free, stored address |
| ConnectionRuns.PromoteExternals | concordium-node/src/p2p/maintenance.rs:798-822 | a promotion keeps them so exactly if the store works, the address is stored already, or nothing is promoted |
| ConnectionRuns.ApplyExternals | concordium-node/src/p2p/maintenance.rs:783-892 | no other change can break them: removing one connection never unpersists another |
| ConnectionRuns.StepExternals | concordium-node/src/p2p/peers.rs:201-224 | a step keeps external addresses distinct and stored if and only if it is neither of the two that can break them |
| ConnectionRuns.BenignRunsKeepExternals | concordium-node/src/p2p/maintenance.rs:783-892 | so do all runs of such steps |
| ConnectionRuns.ExternalsThroughout | concordium-node/src/p2p/maintenance.rs:783-892 | in a run they are so at every moment if and only if no step is one of the two that can break them |
| ConnectionRuns.WellBehavedRuns | concordium-node/src/p2p/maintenance.rs:783-892 | with one handshake per connection and a working store: distinct stored external addresses and an exact gauge |
| ConnectionRuns.RepeatedHandshakeBreaks | concordium-node/src/connection/message_handlers.rs:28-30 | a concrete run with one repeated handshake, from any store, after which two established connections share an external address and the gauge says three |
| ConnectionEffects.AcceptEffect | concordium-node/src/p2p/connectivity.rs:372-446 | an incoming connection becomes a candidate exactly if it is not banned, there is room and its address is unused |
| ConnectionEffects.ConnectEffect | concordium-node/src/p2p/connectivity.rs:450-545 | so does an outgoing one, if it is also not to ourselves and not beyond the number of nodes allowed; an unreachable node is soft-banned |
| ConnectionEffects.ConnectAllEffect | concordium-node/src/p2p/maintenance.rs:823-848 | discovered peers are dialled in order, until there are enough and not before |
| ConnectionEffects.DialEffect | concordium-node/src/p2p/maintenance.rs:785-797 | a given address is dialled however many nodes there are, any other only below the maximum; discovered peers count from the nodes established |
| ConnectionEffects.RegisterEffect | concordium-node/src/p2p/maintenance.rs:483-487 | a request joins the end of the queue, unless the queue is full |
| ConnectionEffects.HandshakeEffect | concordium-node/src/connection/mod.rs:548-569 | a handshake sets id and port of its connection, raises the gauge and asks for a promotion; no other connection changes |
| ConnectionEffects.RemovalEffect | concordium-node/src/p2p/maintenance.rs:849-879 | an expulsion closes the connection, unpersists it if established and bans its ip; a removal does the same without the ban; nothing else changes |
| ConnectionEffects.RemoveAllEffect | concordium-node/src/p2p/maintenance.rs:880-890 | exactly the listed connections are closed and their addresses unpersisted, except where the store fails |
| ConnectionEffects.PromotionEffect | concordium-node/src/p2p/maintenance.rs:798-822 | a candidate becomes established and stored, or is closed if its external address is in use |
| ConnectionEffects.ClosingEffect | concordium-node/src/p2p/connectivity.rs:549-615 | closing a connection in housekeeping takes out just that one, and the gauge follows |
| ConnectionEffects.BanHolds | concordium-node/src/p2p/connectivity.rs:372-545 | while an ip is banned, no run brings in a connection from it |
| ConnectionEffects.ExpelledStaysOut | concordium-node/src/p2p/maintenance.rs:849-855 | after an expulsion and until the ban is lifted, the connection is gone and every live connection from its ip was live before |
| Dedup.QueueIsWindow | concordium-node/src/connection/mod.rs:117-128 | at all times the queue holds exactly the last accepted hashes, as many as its capacity |
| Dedup.AcceptedApart | concordium-node/src/connection/mod.rs:160-171 | any capacity + 1 consecutive accepted hashes are pairwise distinct |
| Dedup.DedupQueue.constructor | concordium-node/src/connection/mod.rs:99-105 | a new queue is empty |
| Dedup.DedupQueue.CheckAndInsert | concordium-node/src/connection/mod.rs:117-128 | a payload is a duplicate exactly if it is among the last accepted ones; otherwise it becomes the newest |
| Relay.ExclusionsHonoured | concordium-node/src/p2p/connectivity.rs:197-243 | a broadcast goes to no excluded peer if and only if relaying is full or no excluded peer is eligible |
| Relay.FullRelaying | concordium-node/src/p2p/connectivity.rs:213-215 | with full relaying it goes to exactly the eligible peers that are not excluded |
| Relay.TakesFewer | concordium-node/src/p2p/connectivity.rs:206-212 | below that, floor(p·n) peers are chosen, fewer than there are unless there are none |
| Relay.BelowFullRelaying | concordium-node/src/p2p/connectivity.rs:201-216 | the chosen peers are the ones left out: it goes to exactly the other eligible peers, among them every excluded one, and to n - floor(p·n) of the n others, which is floor(p·n) only if that is half of n |
| Relay.SentBackToItsSource | concordium-node/src/p2p/connectivity.rs:201-216 | three peers, three quarters: a packet goes back to the peer it came from, and to one of the other two |
| Flooding.NoEviction | concordium-node/src/connection/mod.rs:462-495 | as long as the payloads fit, no hash is pushed out of a queue |
| Flooding.ReceiveKeepsNode | concordium-node/src/plugins/consensus.rs:105-173 | an arriving packet leaves every relayable payload waiting at most once, remembered and not yet relayed |
| Flooding.HandledKeepsNode | concordium-node/src/plugins/consensus.rs:208-261 | so does handling a request, whatever consensus answers |
| Flooding.RunKeepsNet | concordium-node/src/plugins/consensus.rs:105-261 | so does every run of the network |
| Flooding.RelayedAtMostOnce | concordium-node/src/plugins/consensus.rs:240-252 | in every run every node relays every payload at most once |
| Flooding.NeverSentBack | concordium-node/src/p2p/connectivity.rs:662-670 | a relayed packet never goes back to the peer it came from |
| Flooding.StepBalance | concordium-node/src/p2p/connectivity.rs:197-243 | every delivery takes a packet out of flight, and only originating and relaying put any in |
| Flooding.RunBalance | concordium-node/src/p2p/connectivity.rs:197-243 | in every run, what is delivered or in flight is at most what was originated and relayed |
| Flooding.RelayingOnceEnds | concordium-node/src/plugins/consensus.rs:240-252 | where each node relays each payload at most once, deliveries are bounded by links times payloads plus what was originated |
| Flooding.FloodingEnds | concordium-node/src/connection/mod.rs:462-495 | that bound holds for every run whose payloads fit the deduplication queues, whatever consensus answers |
| Flooding.RelaysAreAccepted | concordium-node/src/plugins/consensus.rs:240-252 | a node relays a payload at most as often as consensus gives it an answer that allows it |
| Flooding.FloodingEndsByAnswers | concordium-node/src/consensus_ffi/helpers.rs:230-266 | the same bound holds for any number of payloads and any queues if no node gets such an answer twice for one payload |
| FloodingReach.ReceiveEffect | concordium-node/src/connection/mod.rs:462-495 | for every packet type: which queue an arriving payload is looked up in, how many it remembers, and that a new one waits for consensus |
| FloodingReach.HandleEffect | concordium-node/src/plugins/consensus.rs:240-252 | exactly for the four relayable types and the answers that allow it, one packet goes to every peer but the source |
| FloodingReach.OriginateEffect | concordium-node/src/plugins/consensus.rs:313-338 | a node's own payload goes to all its peers |
| FloodingReach.RunSpreads | concordium-node/src/plugins/consensus.rs:105-261 | in a run that loses and drops nothing, whoever knows a payload has it waiting or has passed it on to all its peers |
| FloodingReach.FloodingReachesAll | concordium-node/src/p2p/connectivity.rs:197-243 | when nothing is on its way or waiting any more, every node that can be reached from an originator has remembered the payload |
| FloodingLimits.PassAll | concordium-node/src/connection/mod.rs:462-495 | if consensus accepts known blocks, capacity + 1 blocks on one link are all relayed on, none recognised by deduplication |
| FloodingLimits.Round | concordium-node/src/connection/mod.rs:462-495 | under the same condition, once round the triangle they are back where they were |
| FloodingLimits.FloodingNeedNotEnd | concordium-node/src/connection/mod.rs:192-212 | one payload too many for a queue and a consensus layer that accepts a known block again allow runs with as many deliveries as one likes; runs beyond the bound do contain such a second acceptance |
| Scheduler.StepOvertakes | concordium-node/src/bin/cli.rs:399-458 | each step uses up the waiting time of a low-priority message |
| Scheduler.RunOvertakes | concordium-node/src/bin/cli.rs:399-458 | so does every run, under any arrivals |
| Scheduler.WaitingIsBounded | concordium-node/src/bin/cli.rs:399-458 | a message with k before it waits for at most (k + 1)·N + 1 high-priority ones |
| Scheduler.NextLowIsSoon | concordium-node/src/bin/cli.rs:469-529 | while low-priority messages wait, at most N + 1 high-priority ones go before the next of them |
| Scheduler.WorkersAreBounded | concordium-node/src/consensus_ffi/consensus.rs:42-45 | with the queue sizes of the node, no waiting message is overtaken by more than 536,870,913 inbound or 134,217,729 outbound ones |
| Scheduler.BoundIsMet | concordium-node/src/bin/cli.rs:435-440 | a worker that waits on both queues can take N + 1 of them first |
| Scheduler.QueuesAreFair | concordium-node/src/bin/cli.rs:412-434 | each queue is served first in, first out, with nothing lost or repeated |
| Scheduler.InnerTakes | concordium-node/src/bin/cli.rs:412-424 | a pass takes the oldest high-priority messages, up to N, before it looks at the other queue |
| Scheduler.OtherMoves | concordium-node/src/bin/cli.rs:426-458 | it then takes one low-priority message, and waits on both queues only if both were empty |
| Scheduler.StopHalts | concordium-node/src/bin/cli.rs:535-550 | the worker halts exactly when it takes a stop message, and takes nothing after it |
| QueueWorkers.QueueWorker.DrainHigh | concordium-node/src/bin/cli.rs:412-424 | the inner loop takes at most N high-priority messages, and is a run of the machine |
| QueueWorkers.QueueWorker.Select | concordium-node/src/bin/cli.rs:435-458 | the blocking wait is a run of the machine |
| QueueWorkers.QueueWorker.Pass | concordium-node/src/bin/cli.rs:399-458 | a pass takes the waiting high-priority messages, up to N, and then a waiting low-priority one |
| QueueWorkers.QueueWorker.Work | concordium-node/src/bin/cli.rs:399-458 | any number of passes is a run of the machine, up to a stop message, and each takes a low-priority message while there are any |
| Latency.EstimateError | concordium-node/src/connection/mod.rs:263-286 | the estimate is the true delay of the oldest unanswered ping plus the drift of the gaps between unanswered pings |
| Latency.EstimateExact | concordium-node/src/connection/mod.rs:263-286 | it is exact with one or two unanswered pings, and with any number at equal gaps |
| Latency.DriftSign | concordium-node/src/connection/mod.rs:271-276 | it is too high if the last gap is the longest, too low if it is the shortest |
| Latency.ExactOnlyIfEven | concordium-node/src/connection/mod.rs:271-276 | in those cases it is exact only if all gaps are equal |
| Latency.ConnectionStats.constructor | concordium-node/src/connection/mod.rs:241-254 | no ping is outstanding at first |
| Latency.ConnectionStats.NotifyPing | concordium-node/src/connection/mod.rs:256-261 | the ping joins the outstanding ones and the counters keep describing them |
| Latency.ConnectionStats.NotifyPong | concordium-node/src/connection/mod.rs:263-286 | a pong is refused exactly when no ping is outstanding, so accepted pongs never exceed pings, and the stored value is the estimate for the oldest ping |
| Handshakes.FirstDifference | concordium-node/src/connection/message_handlers.rs:106-114 | the first position where two genesis lists differ; there is none exactly if one is a prefix of the other |
| Handshakes.GenesisAcceptedIffPrefix | concordium-node/src/connection/message_handlers.rs:106-124 | the genesis check accepts exactly when one list is a prefix of the other |
| Handshakes.GenesisAgreement | concordium-node/src/connection/message_handlers.rs:106-124 | both ends decide alike, and nodes that follow one chain accept each other whenever they meet |
| Handshakes.HighestCommon | concordium-node/src/configuration.rs:39-43 | the choice is the highest common version, and there is none only if none is common |
| Handshakes.VersionAgreement | concordium-node/src/configuration.rs:39-43 | both ends choose the same version from descending lists |
| Handshakes.CheckEffect | concordium-node/src/connection/message_handlers.rs:85-124 | which handshakes are rejected for what, in the order of the checks |
| Handshakes.MutualAcceptance | concordium-node/src/connection/message_handlers.rs:78-124 | two nodes accept each other exactly if both run version 2 or later other than 4.0, have at most 20 networks, share a wire version and one's genesis list is a prefix of the other's; they then speak the same version |
| TrimmedMean.SortedIsUnique | collector-backend/src/bin/node-collector-backend.rs:440 | sorted arrangements are unique, so how the library sorts makes no difference |
| TrimmedMean.Kept | collector-backend/src/bin/node-collector-backend.rs:440-445 | the values fall into low ones, the kept ones and high ones, with half of the omitted ones, rounded down, below |
| TrimmedMean.SumOfParts | collector-backend/src/bin/node-collector-backend.rs:445 | the sum adds up its parts |
| TrimmedMean.SumUp | collector-backend/src/bin/node-collector-backend.rs:445 | the sum, reduced to 64 bits or failing on overflow as the build decides |
| TrimmedMean.AverageWithoutOuterValues | collector-backend/src/bin/node-collector-backend.rs:437-446 | the average of the kept values, exactly when the program stops instead, and that few high outliers never lift the returned value, nor few low ones pull it down if the sum fits |
| TrimmedMean.ExactIffSumFits | collector-backend/src/bin/node-collector-backend.rs:445 | without overflow checks the result is the average exactly if the sum fits 64 bits |
| TrimmedMean.KeptAtMostIff | collector-backend/src/bin/node-collector-backend.rs:441-443 | no kept value exceeds a bound if and only if at most half as many as are omitted, rounded up, do |
| TrimmedMean.KeptAtLeastIff | collector-backend/src/bin/node-collector-backend.rs:441-443 | no kept value is below a bound if and only if at most half as many as are omitted, rounded down, are |
| TrimmedMean.ResistsHighOutliers | collector-backend/src/bin/node-collector-backend.rs:437-446 | that many high outliers do not lift the average above the bound, nor the value returned when the sum wraps |
| TrimmedMean.ResistsLowOutliers | collector-backend/src/bin/node-collector-backend.rs:437-446 | that many low outliers do not pull it below |
| TrimmedMean.OrderDoesNotMatter | collector-backend/src/bin/node-collector-backend.rs:437-446 | the result does not depend on the order of the values |

## Left out

- The Noise handshake messages and the cryptography: sessions are a pair of functions indexed by a counter, with `Noise.Lawful` as the only promise; failures of the session on sending (counter exhaustion) are not modelled.
- Reads before the handshake is complete, and the smaller write size used then.
- Messages whose encrypted length does not fit the 32-bit header: the header is then reduced as in the code (`Framing.HeaderRoundTrip`), but the theorems about delivery are about messages that fit.
- The consensus layer behind the foreign function interface: its answers are arbitrary; that it does not accept a payload twice is a hypothesis of `Flooding.FloodingEndsByAnswers`.
- The relaying of direct messages and the sending of catch-up replies in `update_peer_states`.
- `invalidate_if_exists` of the deduplication queues; no caller is part of the modelled files.
- Hash functions: payloads stand for their hashes, taken to be injective.
- Clocks: times are parameters and do not go backwards; memory ordering of atomics and wrap-around of tokens and counters are not modelled.
- Which connected peers trigger a refresh of the catch-up list (time stamps in milliseconds): any refresh may happen at any time between rounds.
- Housekeeping's choice of which connections to close: any connection may be closed at any time.
- Disconnected channels, and the capacity of the message queues between threads (a full inbound queue is a lost message in `Flooding`).
- The bans database, name lookup, bootstrapping, peer buckets, throughput figures, statistics export, gRPC and health services, serialization, platform glue: input and output, or too simple to add hard properties.
- TrimmedMean.AverageWithoutOuterValues: sorts on values and not in place, because the sorting is done by the standard library; values are unbounded naturals, of which 64-bit numbers are the case that occurs.
- Dedup.DedupQueue.CheckAndInsert: the circular queue of the library is a sequence that drops its oldest entry when full.
- Relay.BelowFullRelaying: the percentage is a real number, so that rounding of the floating-point product is not modelled.
