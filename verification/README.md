# axelar-core in Dafny

A Dafny model of the parts of axelar-core where a mistake loses coins, events or
messages, with proofs over all runs and all inputs. Six parts:

1. **Cross-chain transfers over IBC** (x/axelarnet). The entry points that route,
   send, fail, settle and retry transfers and general messages are steps of a state
   machine (`TransferProtocol`) over a bank ledger (`Ledger`). `TransferInvariant`
   ties the transfer table, the queue, the two sequence maps and the open packets to
   one another and to the balances; `TransferLinksProofs`, `TransferFunds`,
   `TransferSteps` and `TransferSafety` show that every step keeps it; `TransferRuns`
   draws the consequences for every run. `AxelarnetKeeper` holds the loops as they run, on one
   store, and proves each equal to its step; `TransferQueue` places the queue of IDs in the
   key-value store.
2. **The circular buffer of cumulative sums** (utils/circular_buffer.go). `RingBuffer` has
   the operations on values, with int32 and uint64 arithmetic explicit, `RingHistory` and
   `RingRuns` the meaning of a count after any run, `CircularBuffers` the in-place object.
3. **Its protobuf codec** (utils/bitmap.pb.go): `BitOps`, `Varint`, `BufferCodec` (format, round
   trip) and `BufferWire` (the writer that fills a byte array from the back, the parser loops).
   It follows the Protocol Buffers Encoding guide, sections "Base 128 Varints" and
   "Packed Repeated Fields".
4. **Queues in a byte-ordered key-value store** (utils/queuer.go): `ByteOrder`, `StoreKeys`,
   `KVQueues`, `SequenceQueues`.
5. **Cached execution and end-blockers**: `CachedFold`, `ConfirmedEvents`, `PollExpiry`,
   and the key rotation check `KeyRotation`.
6. **Ante handlers and the broadcaster**: `MessageTree`, `TxAcceptance`, `FeeRefunds`,
   `RefundShares`, `Batcher`, `RetryBroadcast`.

## Where the code does less than one would expect

- Raising the maximum size of a circular buffer that has gone round forgets values
  (`RaisingForgets`); a count is exact if and only if the values of its window that are no
  longer held were zero (`CountIsExactIff`).
- A maximum size below one is accepted, and the next `Add` panics; after a size of zero every
  `Add` and `Count` does (`Add`, `Count`, `SetMaxSize`). Negative windows are accepted: they
  count round the ring (`FarWindow`, `NegativeWindow`) and panic if and only if the int32 sum
  of index, window and length wraps to a negative number that is no multiple of the length
  (`NegativePanics`).
- The index computation is right for every step that growing takes if and only if three
  array lengths fit in 2^31 (`AddToIndexIsAround`, `OverflowIff`).
- A `SequenceKVQueue` stays valid after `Enqueue` if and only if the sequence number does
  not wrap at 2^64 (`EnqueueKeepsValid`).
- A key of two or more particles joined by `_` (utils/key) belongs to one list of that many
  particles if and only if none of them holds a `_` (`OnlyKeyIff`, `DelimiterCollides`). The
  sequence keys of x/axelarnet, whose numbers have a fixed length, determine port and channel
  if and only if these are free of `_` (`SequenceKeysAreUnique`). That is so for every
  registered chain: x/axelarnet/types/types.go:199 and msg_add_chain.go:67 refuse other paths.
- A queue stays readable after `Enqueue` if and only if the key of the value does not start
  with the queue name (`Enqueue`); importing an exported queue panics if and only if an entry
  lacks the delimiter after the queue name or its value (`ExportImport`), for instance an
  entry of a queue with a longer name (`LongerNameStopsImport`).
- The batching loop waits with an unanswered batch if and only if the task it took last was
  discarded as expired while a batch was open (`WaitingAnswers`, `ExpiredTaskStrands`).
- The retry loop returns neither a response nor an error for a negative retry count, and
  crashes exactly on a reported message index outside the list (`EdgeCases`, `AttemptsEnd`).
- Refund requests that encode alike share one pending refund, and the last one's share is
  kept. The stored refunds add up to the fee if and only if no two requests share a key or,
  with less than a unit for each, none shares the key of the first (`ConservedIff`,
  `SharedKeyLoses`).

## Model

| member | source | states |
|---|---|---|
| `TransferRuns.TransferLifecycle` | x/axelarnet/abci.go:23-72 | in every run, a transfer is queued and pending, or in exactly one open packet and pending, or failed or completed and in neither |
| `TransferRuns.TransfersAreBacked` | x/axelarnet/abci.go:58-63 | in every run and for every asset: queued transfers are covered by the IBC account, open packets equal the coins in flight, failed transfers, pending transfers and messages not under way are covered by the escrow, completed transfers by what was delivered, and the total is the initial one |
| `TransferRuns.RunKeepsInv` | x/axelarnet/keeper/msg_server.go:182-338 | the invariant over tables, queue, sequence maps, packets and balances holds after every run of all entry points |
| `TransferRuns.RunKeepsSupply` | x/axelarnet/keeper/msg_server.go:222-303 | no run creates or destroys coins of any asset |
| `TransferRuns.SequencesAreUnambiguous` | x/axelarnet/module.go:257-268 | in every run no packet is in both sequence maps, and the mapped packets are exactly the open packets sent by the IBC account |
| `TransferRuns.EndBlockerNeverLacksFunds` | x/axelarnet/abci.go:17-75 | in every run the end-blocker panics only for an asset that is not recognised, never for missing funds, and otherwise takes exactly the first min(limit, size) queue entries |
| `TransferRuns.SettlesOneItem` | x/axelarnet/module.go:270-356 | a settlement changes the status of the one transfer or message its packet carries, removes packet and mapping, and leaves the other items, the queue, the pending claims and all counters alone |
| `TransferRuns.SettledOnce` | x/axelarnet/module.go:207-254 | after a settlement any further acknowledgement or timeout of the same packet changes nothing |
| `TransferRuns.CompletedIsFinal` | x/axelarnet/types/types.go:137-156 | a completed transfer keeps its status, coin and path for ever |
| `TransferRuns.StepKeepsInv` | x/axelarnet/module.go:154-356 | every single step, failed or committed, keeps the invariant |
| `TransferRuns.StepKeepsSupply` | x/axelarnet/keeper/message_route.go:54-99 | every single step keeps the total of every asset |
| `TransferSafety.RouteOneSafe` | x/axelarnet/keeper/msg_server.go:222-236 | a pending transfer with a recognised asset is always enqueued: its ID is new, the escrow covers its coin, the coin moves to the IBC account, the queue stays sorted; otherwise nothing changes; it never panics |
| `TransferSafety.RouteSafe` | x/axelarnet/keeper/msg_server.go:182-240 | routing a whole list never panics and keeps the invariant |
| `TransferSafety.RelockSafe` | x/axelarnet/abci.go:58-72 | the second loop of the end-blocker fails only for an unrecognised asset and keeps the invariant |
| `TransferSafety.EndBlockerSafe` | x/axelarnet/abci.go:17-75 | when the end-blocker panics, and what it leaves of the queue and of the invariant |
| `TransferSafety.SettleSafe` | x/axelarnet/module.go:207-356 | a settlement succeeds exactly if the packet is open and its coin need not be re-locked or is recognised, never panics, and keeps the invariant |
| `TransferSafety.RetrySafe` | x/axelarnet/keeper/msg_server.go:254-317 | a retry succeeds exactly if the transfer is failed, chain and asset are accepted and the send works; the escrow always covers it; it keeps the invariant |
| `TransferSafety.RouteMessageSafe` | x/axelarnet/keeper/message_route.go:27-99 | routing a general message succeeds exactly if it may be sent, its path is open, the send works and its asset is recognised (the escrow then covers it) or there is dust; it keeps the invariant |
| `TransferSafety.DeductFeeIs` | x/axelarnet/message_handler.go:54-85 | a validated fee is at most the amount of the packet, and deducting it leaves the rest |
| `TransferSafety.ReceiveKeeps` | x/axelarnet/message_handler.go:225-353 | an accepted packet never costs the IBC account: the fee goes out, the rest is locked for the new message or stays, nothing else changes |
| `TransferSafety.ReceiveSafe` | x/axelarnet/message_handler.go:97-165 | receiving a packet keeps the invariant |
| `TransferSteps.RelockIsFunded` | x/axelarnet/abci.go:59-61 | the IBC account covers every transfer that waits in it |
| `TransferSteps.WakeIsFunded` | x/axelarnet/keeper/msg_server.go:281-289 | the escrow covers every failed transfer |
| `TransferSteps.PacketIsFunded` | x/axelarnet/module.go:300-356 | the coins in flight cover every open packet, and only IBC account packets are mapped |
| `TransferSteps.PendingIsFunded` | x/axelarnet/keeper/msg_server.go:222-232 | the escrow covers every pending transfer |
| `TransferSteps.UnroutedIsFunded` | x/axelarnet/keeper/message_route.go:64-98 | the escrow covers the asset of every message that is not under way |
| `TransferSafety.InsertKeepsSorted` | x/axelarnet/keeper/keeper.go:186-211 | the queue, ordered by transfer ID, stays strictly ascending when a transfer is enqueued |
| `TransferQueue.EnqueuedTransferIsListed` | x/axelarnet/keeper/keeper.go:186-211 | with big-endian IDs as priorities the store lists the transfers in the order of the queue of IDs, before and after an enqueue |
| `Ledger.MoveKeepsSupply` | x/nexus/keeper/lockable_asset.go:66-91 | moving a coin between places keeps the total |
| `AxelarnetKeeper.Keeper.SendInCache` | x/axelarnet/abci.go:28-54 | a send that fails or panics leaves the store as it was |
| `AxelarnetKeeper.Keeper.SendPending` | x/axelarnet/abci.go:21-55 | the first loop, in place, does what the step function says, with the failures in order |
| `AxelarnetKeeper.Keeper.RelockFailed` | x/axelarnet/abci.go:57-72 | the second loop, in place, does what the step function says, or panics when it does |
| `AxelarnetKeeper.Keeper.EndBlock` | x/axelarnet/module.go:154-158 | the cached end-blocker commits everything or nothing |
| `AxelarnetKeeper.Keeper.RouteTransfers` | x/axelarnet/keeper/msg_server.go:182-240 | the routing loop, in place, commits what the step function says |
| `AxelarnetKeeper.Keeper.TakeSeqId` | x/axelarnet/module.go:256-261 | returns the mapped transfer and deletes the mapping |
| `AxelarnetKeeper.Keeper.TakeSeqMsg` | x/axelarnet/module.go:263-268 | returns the mapped message and deletes the mapping |
| `AxelarnetKeeper.Keeper.PacketCompleted` | x/axelarnet/module.go:270-298 | the completion hook, in place, against its step function |
| `AxelarnetKeeper.Keeper.PacketFailed` | x/axelarnet/module.go:300-356 | the failure hook, in place, against its step function |
| `AxelarnetKeeper.Keeper.OnSettlement` | x/axelarnet/module.go:207-254 | acknowledgement and timeout commit everything or nothing |
| `RingBuffer.AddToIndexIsAround` | utils/circular_buffer.go:60-66 | the int32 remainder is the ring position; nothing overflows while three lengths fit in 2^31 |
| `RingHistory.PushKeepsRing` | utils/circular_buffer.go:28-29 | writing one entry keeps entry differences equal to sums of the newest values, modulo 2^64 |
| `RingHistory.ShrinkKeepsRing` | utils/circular_buffer.go:36-45 | shrinking keeps them |
| `RingHistory.GrowKeepsRing` | utils/circular_buffer.go:77-90 | growing keeps them for the newest length - 1 values, and rebases every entry |
| `RingRuns.RunIsGood` | utils/circular_buffer.go:19-101 | after every sequence of additions and size changes, whatever the sizes, in which three array lengths stay within 2^31, the buffer describes a suffix of the added values |
| `RingRuns.SmallSizesFit` | utils/circular_buffer.go:60-66 | with three times every size within 2^31 every run is such a sequence |
| `RingRuns.FewAdditionsFit` | utils/circular_buffer.go:77-90 | for any maximum size so is every run of fewer than 2^28 additions; the array is then at most 32 entries more than twice as long as the run, and nothing added is forgotten |
| `RingRuns.CountOf` | utils/circular_buffer.go:48-58 | a count is the sum of the newest values of that suffix, min(w, length - 1) of them |
| `RingRuns.CountNeverOvercounts` | utils/circular_buffer.go:48-101 | after every run a count is the sum of as many of the newest added values as asked for and held, so never more than the true sum |
| `RingRuns.CountIsExactIff` | utils/circular_buffer.go:48-101 | after every run, for all values, a count is exact if and only if the values of the window that are no longer held were zero |
| `RingRuns.CountIsExact` | utils/circular_buffer.go:19-101 | if the maximum size was never raised, every count is the exact sum, through growth, wrap-around, shrinking and overflow of the cumulative sum |
| `RingRuns.RaisingForgets` | utils/circular_buffer.go:77-101 | a raised size after wrap-around: 5, 7 and 0 were added and the count of 3 is 7 |
| `RingRuns.TwoAddedIsARun` | utils/circular_buffer.go:10-30 | the starting point of that example is reached by two additions |
| `RingRuns.BitsAddUp` | utils/bitmap.go:11-28 | for bitmaps the ones of a window are at most the window, so the count of zeros does not underflow and the two add up |
| `CircularBuffers.CircularBuffer.constructor` | utils/circular_buffer.go:10-16 | the new object is a ring of 32 zero entries with the given maximum size cut to int32, and usable exactly if that size is |
| `CircularBuffers.CircularBuffer.AddToIndex` | utils/circular_buffer.go:60-66 | the int32 computation gives the ring position for steps of up to one length |
| `CircularBuffers.CircularBuffer.IsFull` | utils/circular_buffer.go:68-70 | the test on the array is the test on the ring |
| `CircularBuffers.CircularBuffer.Shrink` | utils/circular_buffer.go:36-45 | the copying loop produces the shrunken ring in a new array; a negative size panics, a size of zero leaves no entry |
| `CircularBuffers.CircularBuffer.Grow` | utils/circular_buffer.go:77-90 | the copying loop produces the grown ring in a new array |
| `CircularBuffers.CircularBuffer.Add` | utils/circular_buffer.go:19-30 | in place: fit, grow if needed, write the next cumulative sum modulo 2^64; panics exactly for a maximum size below one or after a size of zero |
| `CircularBuffers.CircularBuffer.Count` | utils/circular_buffer.go:48-58 | the count of the ring, a panic for a window of the maximum size or more or after a size of zero, and what the int32 computation gives for a negative window |
| `RingBuffer.NegativePanics` | utils/circular_buffer.go:57-66 | a negative window panics exactly if the int32 sum of index, window and length is negative and no multiple of the length |
| `RingBuffer.FarWindow` | utils/circular_buffer.go:57-66 | while that sum does not wrap, a negative window of any size counts round the ring |
| `RingBuffer.NegativeWindow` | utils/circular_buffer.go:48-58 | a negative window of less than the length counts as the length less that many |
| `RingBuffer.OverflowIff` | utils/circular_buffer.go:60-90 | from the last entry, the step of one length that growing takes comes out right if and only if three lengths fit in 2^31 |
| `CircularBuffers.CircularBuffer.SetMaxSize` | utils/circular_buffer.go:96-101 | the size is set and the ring cut down to it; panics exactly for a negative size; a size of zero leaves no entry, and no later size brings one back |
| `Varint.SovIsLength` | utils/bitmap.pb.go:263-265 | the size computed from the bit length is the number of bytes written |
| `Varint.ReadFromEncoded` | utils/bitmap.pb.go:361-374 | reading at any position, with any surroundings, returns the value that was written there and the position after it |
| `Varint.ReadAdvances` | utils/bitmap.pb.go:361-374 | reading a varint, if it succeeds, moves forward and stays inside the input |
| `BufferCodec.SizeIsLength` | utils/bitmap.pb.go:241-265 | `Size` is the number of bytes of the encoding |
| `BufferCodec.RoundTrip` | utils/bitmap.pb.go:355-518 | parsing the encoding of any buffer returns the buffer, negative int32 fields and 10-byte varints included |
| `BufferCodec.ReadFieldAdvances` | utils/bitmap.pb.go:358-512 | every iteration of the parser fails or moves forward inside the input, so it ends and has then read exactly the input |
| `BufferCodec.Skip` | utils/bitmap.pb.go:519-596 | skipping an unknown field, nested groups included, fails or moves forward |
| `BufferCodec.SkipUnknown` | utils/bitmap.pb.go:498-511 | the skipped field ends inside the input |
| `BufferWire.EncodeVarint` | utils/bitmap.pb.go:217-227 | writes the encoding right before the offset and nothing else |
| `BufferWire.MarshalToSizedBuffer` | utils/bitmap.pb.go:181-215 | fills the end of the array with exactly the encoding, back to front, and leaves the bytes before it alone |
| `BufferWire.MarshalBytes` | utils/bitmap.pb.go:166-174 | the array of the computed size is filled completely |
| `BufferWire.SizeOf` | utils/bitmap.pb.go:241-261 | the summing loop returns the length of the encoding |
| `BitOps.OrStep` | utils/bitmap.pb.go:370 | or-ing a shifted 7-bit group into a variable of any width adds it modulo that width |
| `BufferWire.ReadVarint` | utils/bitmap.pb.go:361-374 | the or-ing loop reads the varint, cut to the 32 or 64 bits of the variable, with the errors for overflow and end of input |
| `BufferWire.ReadElements` | utils/bitmap.pb.go:439-456 | the packed loop reads the elements up to the end of the field |
| `BufferWire.ReadRepeated` | utils/bitmap.pb.go:384-459 | the repeated field in both wire forms, with its length checks |
| `BufferWire.SkipField` | utils/bitmap.pb.go:519-596 | the depth-counting loop skips as specified |
| `BufferWire.UnmarshalBytes` | utils/bitmap.pb.go:355-518 | the parser loop returns what the format says, for every input |
| `ByteOrder.Be8Order` | utils/queuer.go:205-219 | eight-byte big-endian numbers compare as the numbers do |
| `ByteOrder.SortedUnique` | testutils/fake/store.go:214-233 | a set of keys has one ascending listing |
| `ByteOrder.Ascending` | testutils/fake/store.go:214-233 | repeatedly taking the least key lists the keys in ascending order |
| `StoreKeys.AppendJoins` | utils/store.go:220-261 | the prefix chain of a key is the delimiter-joined list of its particles |
| `StoreKeys.OnlyKeyIff` | utils/key/key.go:47-66 | no other list of as many particles has the same key if and only if there is at most one particle or none of them holds the delimiter |
| `StoreKeys.DelimiterCollides` | utils/key/key.go:47-66 | for every list of two or more particles, one of which holds the delimiter, there is another list with the same key |
| `StoreKeys.SequenceKeysAreUnique` | x/axelarnet/keeper/keeper.go:272-344 | no other prefix, port, channel and sequence number have the same key if and only if port and channel are free of the delimiter |
| `StoreKeys.SequenceMapsAreApart` | x/axelarnet/keeper/keeper.go:272-344 | keys of the two sequence maps never coincide, whatever port and channel |
| `KVQueues.QueueKeyOrder` | utils/queuer.go:56-59 | queue keys with priorities of one length are ordered by priority, then key |
| `KVQueues.HeightOrder` | utils/queuer.go:205-219 | with heights as priorities the order is by (height, key) |
| `KVQueues.EnqueueInQueue` | utils/queuer.go:56-59 | enqueueing inserts one key into the sorted queue |
| `KVQueues.DeleteFromQueue` | utils/queuer.go:89-111 | deleting one key leaves the order of the others |
| `KVQueues.FindsLeastMatch` | utils/queuer.go:89-111 | the search finds the least entry that passes the filter, and gives up exactly at the end or at an entry without a value |
| `KVQueues.GeneralKVQueue.Enqueue` | utils/queuer.go:56-59 | the queue gains the entry at its place and the value is stored under its key; the queue stays readable exactly if that key does not start with the queue name |
| `KVQueues.GeneralKVQueue.DequeueFirst` | utils/queuer.go:89-111 | the iterator loop removes the entry the search finds and no other |
| `KVQueues.GeneralKVQueue.Dequeue` | utils/queuer.go:66-71 | only the least entry is looked at and removed |
| `KVQueues.GeneralKVQueue.DequeueIf` | utils/queuer.go:74-79 | only the least entry is looked at, and removed if it passes the filter |
| `KVQueues.GeneralKVQueue.DequeueUntil` | utils/queuer.go:82-87 | removes the least entry that passes the filter, or nothing if none does before the end or the first entry without a value |
| `KVQueues.GeneralKVQueue.IsEmpty` | utils/queuer.go:114-119 | true exactly for an empty queue |
| `KVQueues.GeneralKVQueue.ImportState` | utils/queuer.go:160-170 | the loop over the items, in whatever order, writes what the fold in that order writes, or panics with it |
| `KVQueues.ImportPanics` | utils/queuer.go:160-170 | in every order the import panics exactly if an item belongs to another queue or has no value |
| `KVQueues.ImportAnyOrder` | utils/queuer.go:160-170 | all orders of importing the items of a queue give the same store |
| `KVQueues.ExportImport` | utils/queuer.go:138-170 | importing an exported queue into an empty store, in any order, panics exactly if an entry lacks the delimiter or its value, and otherwise gives the same queue with the same values |
| `KVQueues.LongerNameStopsImport` | utils/queuer.go:138-170 | one entry of a queue whose name only starts with this one's is exported, and the import panics |
| `SequenceQueues.EnqueueAppends` | utils/queuer.go:254-267 | the new key is the greatest, so the value goes to the end |
| `SequenceQueues.EnqueueKeepsValid` | utils/queuer.go:308-329 | the stored counters describe the queue after an enqueue if and only if the sequence number does not wrap |
| `SequenceQueues.DequeueRemoves` | utils/queuer.go:271-278 | removing the n-th oldest keeps the order of the others and the counters right |
| `SequenceQueues.SequenceKVQueue.constructor` | utils/queuer.go:237-251 | a queue rebuilt from its store is the same queue |
| `SequenceQueues.SequenceKVQueue.Enqueue` | utils/queuer.go:254-267 | appends, or reports a full queue and changes nothing |
| `SequenceQueues.SequenceKVQueue.Peek` | utils/queuer.go:287-306 | the n-th oldest element, or none if there are fewer |
| `SequenceQueues.SequenceKVQueue.Dequeue` | utils/queuer.go:271-278 | returns and removes the n-th oldest element |
| `CachedFold.FailuresLeaveNoTrace` | utils/abci.go:19-38 | running all elements gives the state of running only those that succeed, and then none fails |
| `ConfirmedEvents.MarkedAt` | x/evm/keeper/chainKeeper.go:671-713 | each event of a pass is marked by its own outcome |
| `ConfirmedEvents.MarkedElsewhere` | x/evm/keeper/chainKeeper.go:671-713 | every other key of the store keeps its content |
| `ConfirmedEvents.Keeper.TakeEvents` | x/evm/abci.go:92-96 | the first loop takes the first entries off the store queue, up to the limit, the end or the first entry without an event, and leaves the events |
| `ConfirmedEvents.Keeper.MarkEvents` | x/evm/abci.go:98-123 | the second loop leaves the in-order fold of the handlers and one mark for each event; it panics exactly if one is not confirmed or comes up twice |
| `ConfirmedEvents.Keeper.ProcessConfirmedEvents` | x/evm/abci.go:87-124 | on the store queue: takes the first events up to the limit, marks each once, leaves the in-order fold of the handlers; panics exactly if one is not confirmed or comes up twice |
| `ConfirmedEvents.Responses` | x/auxiliary/keeper/msg_server.go:42-71 | one response per message, from its own execution |
| `ConfirmedEvents.Batch` | x/auxiliary/keeper/msg_server.go:32-76 | succeeds exactly if all signers agree and nothing panics, with the fold state and one response per message |
| `KeyRotation.CheckRotation` | x/evm/abci.go:351-377 | accepts exactly the duplicate-free enumerations of the whole next key with matching weights and threshold, in any order; and exactly when it panics on a short weight list |
| `KeyRotation.CoversBySize` | x/evm/abci.go:353-371 | a duplicate-free list inside a set of the same size covers it |
| `PollExpiry.Keeper.HandleNext` | x/vote/abci.go:23-61 | one turn: the entry at the front stays unless its poll is there and expired; otherwise the poll is found, its handler runs on its state, and entry and poll are deleted |
| `PollExpiry.Keeper.HandlePollsAtExpiry` | x/vote/abci.go:14-59 | on the store queue: succeeds exactly if each of the first expired polls, up to the limit, has a state and no vote handler fails; then the handlers have run in queue order, each on the state of its poll, exactly these entries and polls are deleted, and if they are fewer than the limit no expired poll is left in a queue ordered by expiry; otherwise the first poll in the way decides between error and panic; a poll is never missing |
| `PollExpiry.PollQueueIsByExpiry` | x/vote/keeper/keeper.go:126-139 | a store queue prioritised by big-endian expiry heights lists the polls by expiry |
| `MessageTree.UnpackIsPreOrder` | x/ante/batch.go:65-92 | the flattened list is the whole pre-order traversal if and only if nothing inside an execution or a refund wraps messages; otherwise it is shorter |
| `MessageTree.UnpackMsgs` | x/ante/batch.go:65-92 | the recursive loop returns the flattened list, or fails on an unreadable execution |
| `TxAcceptance.ValidateWrappedMsgs` | x/ante/batch.go:94-122 | accepts exactly if no top-level execution wraps a wrapper or a role-restricted message and no top-level batch wraps an execution |
| `TxAcceptance.ContainsRoleGated` | x/ante/batch.go:124-137 | the first message that is not open to everybody decides: restricted, or an error if its role cannot be read |
| `TxAcceptance.Contains` | x/ante/batch.go:139-158 | finds a message of a kind exactly if there is one |
| `TxAcceptance.ValidateRefundQualification` | x/ante/check_refund.go:107-155 | accepts exactly if every message that is not a refund's inner message is a batch or a registered refund from a proxy |
| `TxAcceptance.OuterIsRefundable` | x/ante/check_refund.go:92-105 | no message at the top or in a top-level batch is skipped as somebody's inner message |
| `TxAcceptance.AcceptedIsTidy` | x/auxiliary/types/msg_batch.go:28-52 | acceptance allows no deeper nesting than a refund in a batch |
| `TxAcceptance.AcceptedSeesEverything` | x/ante/batch.go:51-92 | for every accepted transaction the flattened list is every message at every depth, in order |
| `TxAcceptance.AcceptedRefundsOnly` | x/ante/check_refund.go:107-155 | a transaction with a refund anywhere holds only registered refunds and batches of them |
| `TxAcceptance.AcceptedExecIsHarmless` | x/ante/batch.go:94-122 | no execution, at any depth of an accepted transaction, reaches a role-restricted message |
| `TxAcceptance.NestedBatchHides` | x/auxiliary/types/msg_batch.go:37-39 | without the rule against nested batches a message would be missed |
| `TxAcceptance.RegisteredWrapperHides` | x/ante/check_refund.go:157-164 | if refund requests were registered as refundable a message would be missed |
| `FeeRefunds.SplitFeesEvenly` | x/ante/check_refund.go:166-181 | n shares without zero coins that add up to the fee in every denom; for a fee naming each denom once they differ by less than n |
| `FeeRefunds.AddCoin` | x/ante/check_refund.go:174-178 | adds in one denom only and stores no zero |
| `FeeRefunds.CountRefunds` | x/ante/check_refund.go:83-90 | the number of refund requests |
| `FeeRefunds.RewardStore.RecordRefunds` | x/ante/check_refund.go:40-81 | the k-th refund request gets the k-th of the even shares, the shares never run out, other records are untouched; it fails exactly at the first record that is not valid |
| `RefundShares.OwnShare` | x/reward/keeper/keeper.go:102-106 | if no two requests share a key, every request finds its own share |
| `RefundShares.StoredAtMostPaid` | x/reward/keeper/keeper.go:102-106 | the stored refunds never exceed the fee, and reach it exactly if no non-zero share is written over |
| `RefundShares.ConservedIff` | x/ante/check_refund.go:57-78 | the stored refunds of a denom add up to the fee if and only if no two requests share a key or, with less than a unit for each, none shares the key of the first |
| `RefundShares.SharedKeyLoses` | x/ante/check_refund.go:57-78 | two requests with one key and a fee of 5: one record of 2 |
| `Batcher.Backlog.Push` | sdk-utils/broadcast/backlog.go:29-44 | a task with messages goes to the end, one without is refused |
| `Batcher.Backlog.LoadHead` | sdk-utils/broadcast/backlog.go:23-27 | loading the head changes nothing that can be observed |
| `Batcher.Backlog.Peek` | sdk-utils/broadcast/backlog.go:46-50 | the first task, left in place |
| `Batcher.Backlog.Pop` | sdk-utils/broadcast/backlog.go:15-21 | the first task, removed |
| `Batcher.Backlog.Len` | sdk-utils/broadcast/backlog.go:52-60 | the number of waiting tasks, head included |
| `Batcher.RunKeepsInv` | sdk-utils/broadcast/broadcast.go:409-473 | for every arrival order, expiry and result: tasks are taken in arrival order and answered in that order; the collected messages are those of the collected callbacks, so broadcasts carry exactly their tasks' messages, are never empty, and exceed the limit only as a single task |
| `Batcher.ServedInOrder` | sdk-utils/broadcast/broadcast.go:409-473 | every task taken and not discarded, but for the open batch, got the result of the broadcast that carried its messages |
| `Batcher.AnsweredOnce` | sdk-utils/broadcast/broadcast.go:409-473 | in every run no task gets two results |
| `Batcher.WaitingAnswers` | sdk-utils/broadcast/broadcast.go:431-455 | a run waits exactly if the loop can take no step, whatever the clock says and a broadcast returns; then all arrived tasks have been taken, and all that were not discarded have a result if and only if the last one taken was not discarded while a batch was open; otherwise exactly the tasks of that batch have none |
| `Batcher.ExpiredTaskStrands` | sdk-utils/broadcast/broadcast.go:441-454 | a run in which a live task gets no result |
| `RetryBroadcast.Broadcast` | sdk-utils/broadcast/broadcast.go:314-347 | the loop, dropping messages in place from its own copy, makes the specified attempts and leaves the caller's messages alone |
| `RetryBroadcast.RemoveAt` | sdk-utils/broadcast/broadcast.go:331 | the shift drops exactly one message |
| `RetryBroadcast.AttemptsSelect` | sdk-utils/broadcast/broadcast.go:321-344 | every attempt sends an in-order selection of the messages, not empty if they are not |
| `RetryBroadcast.AttemptsEnd` | sdk-utils/broadcast/pipeline.go:45-68 | between one and maxRetries + 1 attempts, all but the last failed, and the end is that of the last one |
| `RetryBroadcast.AttemptsPersist` | sdk-utils/broadcast/broadcast.go:335-343 | it gives up early only on an error that is not worth a retry |
| `RetryBroadcast.AttemptsDoNotCrash` | sdk-utils/broadcast/broadcast.go:328-333 | with indices inside the list it does not crash |
| `RetryBroadcast.BroadcastRetries` | sdk-utils/broadcast/pipeline.go:45-68 | the whole call: number and content of attempts, success exactly if the last attempt succeeded |

## Left out

- Core IBC, ICS-20 and nexus: only the contracts listed at the head of `TransferProtocol` are used, among them that nexus locks the coins of every pending transfer and message it creates.
- Straight-line handlers: retry, message routing and incoming messages are step functions on values, not methods on the keeper object; the loops and the hooks are both.
- Assets that are burned and minted instead of locked (x/nexus/keeper/lockable_asset.go:72-73): the burned amount counts as locked.
- Overflow of transfer IDs and of IBC sequence numbers.
- The refund path for packets whose sender is not the IBC account (x/axelarnet/module.go:372), a no-op for the packets modelled.
- The order of Go's deferred deletion and the return value in the mapping lookups: the lookup returns what was stored.
- CircularBuffers.CircularBuffer.Add: an array that grows beyond a third of 2^31 is excluded, because its index computations overflow (`OverflowIff`); the maximum size may be any.
- KVQueues.ExportImport: the Cosmos SDK store is taken to refuse a nil value with a panic; an entry whose key holds another queue's entry counts as one without a value.
- BufferCodec.RoundTrip: buffers of more than 2^58 entries, whose length does not fit the length arithmetic, are excluded.
- The generated codecs of `Bitmap`, `QueueState` and `Threshold`: `Bitmap` only wraps a `CircularBuffer` field, the others repeat the same code.
- Unicode normalisation and lower-casing of keys, and hashed keys: keys are byte strings. Integers in keys are taken to be eight big-endian bytes.
- `deliverPendingMessages` (x/evm/abci.go): the same bounded fold as for events, over messages.
- ConfirmedEvents.Keeper.ProcessConfirmedEvents: handlers are assumed not to touch the store of queue and events, and an entry to refer to the key of its own event, as `Enqueue` leaves it.
- PollExpiry.Keeper.HandlePollsAtExpiry: handlers are assumed not to touch the store of queue and polls, and an entry to refer to the key of its own poll; the queue is ordered by expiry for expiry heights that are not negative (`PollQueueIsByExpiry`).
- TxAcceptance.AcceptedSeesEverything: decoding is assumed to give each message its own pointer and each payload its own type, and no wrapper type is registered as refundable.
- Signature, address and per-message basic checks of transactions: they only reject more.
- Batcher.RunKeepsInv: the batching loop runs concurrently with its callers, so it is a state machine over its steps and not a loop, and a callback is named by its task; the channel capacity and the failing lookup of a signer are not modelled.
- RetryBroadcast.Broadcast: the message index is taken as parsed; back-off times are not modelled.
- Genesis, queries, command lines, vald, the EVM contracts' ABI, signing and hashing.
