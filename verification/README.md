# Verification of the client libraries in the Lambda layers

A Dafny model of the two libraries that this repository ships as Lambda layers, kafka-python and psycopg2,
with proofs about their protocols and algorithms. `dafny verify dfyconfig.toml` checks all of it.

Where the source updates objects in place, a class does the same, and its methods are proved against
functions on values; what the source promises is proved about those functions, over all inputs and all runs.
What two threads, or a client and a broker, do together is a state machine over their atomic steps.

| files | what they model |
|---|---|
| RecordFilter, PartitionRecords, Offsets, ReadCommitted | the streaming read_committed filter of a fetched partition |
| FetchLoop, Fetcher, FetchOutcomes, DeliveryOrder, DeliveryComplete, Subscriptions | handing out records and moving positions |
| FetchSession | incremental fetch sessions (KIP-227) against a broker |
| Bits, Varint | zigzag base-128 integers, with the bit operations they are written in |
| GroupMembership, GroupAnswers, GroupSafety, GroupRejoin, Coordinator | joining a consumer group beside the heartbeat threads: the steps, what answers cause, what every run keeps, whether a rejoin is ever forgotten, and the loop of `join_group` and the round of a heartbeat thread, proved to take only those steps |
| Futures | callbacks under interleaving |
| Bytes, Protocol, Connection, ConnectionOutcomes, BrokerConnections | framing, correlation and the futures of requests |
| ProducerBatches | batches of records and their futures |
| Socks5, Socks5Outcomes | the resumable SOCKS5 handshake |
| ConnectionPool, PoolService | the key-based pool of psycopg2 |
| IdleConnections | closing the longest idle connection |
| Regex, CompositeParser, HstoreParser, ValuesPager | the text parsers and the statement builder of psycopg2, over a backtracking matcher for their regular expressions |
| Xerial | the block framing of snappy |
| ClusterIndex | the index of partitions by leader |
| Wrappers, Structs | Option, Result, TopicPartition |

Findings where the code does not do what one would expect, each with its input and the exact condition:

- A heartbeat that is fenced leaves a thread that a later join enables and `poll_heartbeat` then drops while it runs:
  a JoinGroup is sent beside it, and its heartbeat can be in flight (`GroupSafety.OrphanDisturbsJoin`). Every thread is
  off at a JoinGroup if and only if there is no such thread (`GroupSafety.JoinGroupIsFenced`), and the
  JoinGroup is bound to go out alone if and only if nothing is in flight and none can get into its section
  (`GroupSafety.JoinGroupGoesOutAloneIff`).
- `fetched_records` does not return when it starts on a partition whose generator has raised before anything was
  taken (`FetchLoop.LoopEndsIffNotStuck`, `FetchLoop.OneFaultGetsStuck`).
- A throttled incremental fetch response leaves the two sides of the session apart unless the request carried no
  change (`FetchSession.ThrottleKeepsSyncIffNoChange`, `FetchSession.ThrottledChangeDiverges`).
- `encode_varint_6` returns one less than it appended when there are more than five bytes, as for 2^34
  (`Varint.CountIsRightIffUnrolled`).
- `join_group` clears `rejoin_needed` without the lock: a member that falls out of its group between the success of a
  join and that moment stays out of it, and nothing asks for a rejoin (`GroupRejoin.ForgottenIffClearedUnjoined`,
  `GroupRejoin.ResetIsForgotten`, `GroupRejoin.StaysForgotten`).
- A `_on_join_complete` that raises is not repeated (`GroupSafety.ReturnedAlternateIffNoneRaised`,
  `GroupSafety.RaisingBreaksAlternation`).
- A frame whose decoding raises a ValueError leaves its header behind: the next bytes are read as a payload of the
  same length (`Protocol.LeftoverHeaderIsUsedAgain`), or, after a negative length, raise for ever
  (`Protocol.NegativeLengthSticks`).
- `BrokerConnection.recv` would drop popped futures at an unknown correlation id
  (`Connection.UnknownIdLosesWhatWasPopped`); the parser never gives one (`Connection.RecvHandsOutOldest`).
- The SOCKS5 handshake completes on a reply cut short by the end of the stream (`Socks5.CompleteIffAgreed`,
  `Socks5.ShortReplyCompletes`), and refuses IPv6 replies (`Socks5.TypeFourIsRefused`).
- A putback with a key breaks the pool unless the database has to be asked and raises, the key is the connection's own,
  or the key is unknown and the connection does not go to the pool (`ConnectionPool.PutKeepsInvIff`); put back twice, a
  connection is handed out twice (`ConnectionPool.PuttingBackTwiceShares`).
- A call without a key gets a connection that is in use when a user has taken its number for a key
  (`PoolService.OwnNumberIsShared`, `PoolService.FirstNumberIsShared`); a pool with `minconn` above `maxconn` is never
  exhausted (`PoolService.GetsAreServedIff`).
- `execute_values` refuses a query with one placeholder when a text between its formats is a bare percent sign before
  a newline, as in `"%s%\n"` (`ValuesPager.SplitMeans`, `ValuesPager.BareNewlineIsRefused`).
- A composite without columns is read as a single NULL (`CompositeParser.EmptyRowIsReadAsNull`).
- An empty payload does not survive the xerial form (`Xerial.RoundTripIffNotEmpty`).
- A metadata response that lists a leader for a partition and then drops or replaces it leaves the old broker's set
  behind (`ClusterIndex.AgreeIffListedLeadersStand`, `ClusterIndex.RepeatedTopicDisagrees`,
  `ClusterIndex.RepeatedPartitionDisagrees`).

## Model

| member | source | states |
|---|---|---|
| ReadCommitted.FilterIsExact | lambda_layers/python/kafka/consumer/fetcher.py:986-1092 | For every slice of every well-formed v2 log, compacted or not, and its aborted-transaction list in any order: the one-pass filter raises if and only if a checked batch checksum or a record of a visible batch does, and then with the first such fault. If not, it yields exactly the data records at or after the fetch offset that lie in no aborted transaction (decided by looking ahead for the end marker), in order, and ends drained, with `next_fetch_offset` one past the last batch; if it does, what it has yielded by then are exactly those of them below `next_fetch_offset` |
| ReadCommitted.OldBatchesPassThrough | lambda_layers/python/kafka/consumer/fetcher.py:986-1067 | Batches of before version 2 pass whole, whatever the isolation level: all their records from the fetch offset on, and the position one past the last |
| ReadCommitted.SkipsIffHidden | lambda_layers/python/kafka/consumer/fetcher.py:1001-1028 | At each batch, what the queue and the producer set say is what the log ahead says: the batch is dropped iff it is a control batch or lies in an aborted transaction |
| ReadCommitted.InvStep | lambda_layers/python/kafka/consumer/fetcher.py:1076-1092 | Handling one batch header keeps the account: every listed transaction is still queued, open in the producer set, or ended by a marker already seen |
| RecordFilter.SortedTxnsSorts | lambda_layers/python/kafka/consumer/fetcher.py:929-931 | The queue is the broker list sorted by first offset, nothing lost and nothing added |
| RecordFilter.TakesPartitionTheStream | lambda_layers/python/kafka/consumer/fetcher.py:973-984 | Any sequence of `take` calls of any sizes, on a stream that stops or raises, hands out the record stream piece by piece: no record lost, repeated or reordered |
| RecordFilter.TakeHandsOutPrefix | lambda_layers/python/kafka/consumer/fetcher.py:973-984 | For every n, one `take` hands out the next n records of the stream and leaves the rest, or hands out all that is left; an exception met then is kept for the next call when records were taken, and raised at once otherwise |
| RecordFilter.StoppedTakesNothing | lambda_layers/python/kafka/consumer/fetcher.py:973-984 | Once nothing is stored, a dead generator gives empty takes for ever, and a take from a drained part raises a TypeError |
| RecordFilter.StoredIsRaisedOnce | lambda_layers/python/kafka/consumer/fetcher.py:973-984 | A stored exception is raised by the next take, and by that one only |
| RecordFilter.DrainedIsDone | lambda_layers/python/kafka/consumer/fetcher.py:960-966 | Draining forgets what is stored and ends the part |
| RecordFilter.RestEnds | lambda_layers/python/kafka/consumer/fetcher.py:986-1067 | The generator ends drained when it stops and dead when it raises |
| PartitionRecords.PartitionRecords.ConsumeAbortedTransactionsUpTo | lambda_layers/python/kafka/consumer/fetcher.py:1076-1081 | Moves to the producer set exactly the queued transactions that start at or before the offset |
| PartitionRecords.PartitionRecords.UnpackRecords | lambda_layers/python/kafka/consumer/fetcher.py:986-1067 | One resumption of the generator, in place, is one step of the value-level filter |
| PartitionRecords.PartitionRecords.NextRecord | lambda_layers/python/kafka/consumer/fetcher.py:935-951 | Dropping the records below the fetch offset, until the first that is not |
| PartitionRecords.PartitionRecords.TakeRecords | lambda_layers/python/kafka/consumer/fetcher.py:968-984 | `take` with its stored exception, in place, is the value-level take |
| PartitionRecords.PartitionRecords.DrainRecords | lambda_layers/python/kafka/consumer/fetcher.py:960-966 | Draining drops the iterator and the stored exception |
| FetchLoop.EmptyTakeDrains | lambda_layers/python/kafka/consumer/fetcher.py:973-984 | An empty take that raised nothing drains the partition, unless the generator had died before |
| FetchLoop.IterationAdvances | lambda_layers/python/kafka/consumer/fetcher.py:335-355 | Every iteration that goes on lowers the lexicographic measure (queued fetches, live partition, records remaining) and never enters a state without progress |
| FetchLoop.LoopEndsIffNotStuck | lambda_layers/python/kafka/consumer/fetcher.py:335-349 | The loop of `fetched_records` ends if and only if it does not start on a dead generator that has nothing stored and is next in line |
| FetchLoop.OneFaultGetsStuck | lambda_layers/python/kafka/consumer/fetcher.py:335-355 | A concrete fetch with one unreadable record whose first call raises and leaves that state behind |
| FetchLoop.PollIsBounded | lambda_layers/python/kafka/consumer/fetcher.py:295-355 | A call returns at most `max_records` records in all |
| DeliveryOrder.DeliversInOrder | lambda_layers/python/kafka/consumer/fetcher.py:357-407 | After any run of polls, seeks, resets, pauses, reassignments and responses in any order, late or repeated: what was delivered for a partition since it was positioned has strictly increasing offsets from there on and ends before its position; a partition is exactly one of valid, awaiting reset, missing |
| DeliveryOrder.PollMovesForward | lambda_layers/python/kafka/consumer/fetcher.py:357-407 | No poll moves a position back or gives one to a partition that had none |
| DeliveryOrder.TakeIsOrdered | lambda_layers/python/kafka/consumer/fetcher.py:973-984 | What one take hands out is increasing, from the position on, and the next offset is behind all of it, also when it stops at an exception |
| DeliveryComplete.DeliversExactly | lambda_layers/python/kafka/consumer/fetcher.py:295-407 | After any run of polls, seeks, resets, pauses, reassignments and responses in any order, late or repeated, each response a slice of its partition's log that starts no later than its fetch offset, with batches and records that raise or not: what was delivered for a partition since it was positioned is exactly what its log shows a reader of that isolation level from there up to its position, so nothing is lost, repeated or shown that should be hidden |
| DeliveryComplete.SoundLogsNeverStick | lambda_layers/python/kafka/consumer/fetcher.py:335-349 | In such runs on logs of which nothing raises, no poll starts in a state from which it does not return |
| DeliveryComplete.TakeIsExact | lambda_layers/python/kafka/consumer/fetcher.py:973-984 | A take that does not raise hands out exactly what the log shows between the old and the new next offset |
| DeliveryComplete.SliceIsBetween | lambda_layers/python/kafka/consumer/fetcher.py:935-951 | The visible records of a slice from the fetch offset up to any offset within it are those of the whole log |
| FetchOutcomes.ParseMeans | lambda_layers/python/kafka/consumer/fetcher.py:800-902 | Which responses are dropped, raise, reset the position or are opened, in terms of the partition (assigned, not paused, at that position), the error and the policy; an opened one carries the broker's aborted transactions from version 4 on |
| FetchOutcomes.AppendMeans | lambda_layers/python/kafka/consumer/fetcher.py:357-407 | A part that is not wanted or not at the position is drained; one in line is taken from, and the position moves if offsets are to be updated or nothing was handed out |
| FetchOutcomes.ResponseIsDelivered | lambda_layers/python/kafka/consumer/fetcher.py:295-407 | A response at the position of a wanted partition, of a log that can be read: the poll hands out the first records that the log shows from the position to the end of the response, as many as are asked for and there, and moves the position behind them, or to the end of the response if it asked for more |
| FetchOutcomes.PollTakes | lambda_layers/python/kafka/consumer/fetcher.py:350-405 | The same for a part that an earlier poll has left open |
| FetchOutcomes.UnwantedGetsNothing | lambda_layers/python/kafka/consumer/fetcher.py:357-407 | A partition that is paused, unassigned or without position gets nothing from a poll, and its state stays |
| FetchOutcomes.PollRaises | lambda_layers/python/kafka/consumer/fetcher.py:321-349 | A kept exception is raised if its partition is still wanted at its offset, and forgotten otherwise; a new one is raised at once if there is nothing to hand out, and kept if there is |
| FetchOutcomes.UnpackingIsRaisedNext | lambda_layers/python/kafka/consumer/fetcher.py:321-349 | When a record cannot be unpacked behind others, those are handed out and the very next poll raises |
| Fetcher.Fetcher.FetchedRecords | lambda_layers/python/kafka/consumer/fetcher.py:295-355 | The whole call, with the exception stored by the last one, computes the value-level poll, and leaves the partial flag |
| Fetcher.Fetcher.DrainFetches | lambda_layers/python/kafka/consumer/fetcher.py:328-349 | The loop, in place, computes the value-level loop and gathers the records by partition |
| Fetcher.Fetcher.AppendRecords | lambda_layers/python/kafka/consumer/fetcher.py:357-407 | `_append`: records are taken only from a partition still assigned, fetchable and at its position, otherwise the rest is drained; the position moves to the next fetch offset |
| Fetcher.Fetcher.ParseFetchedData | lambda_layers/python/kafka/consumer/fetcher.py:800-902 | `_parse_fetched_data`: stale responses and those for partitions no longer fetchable give nothing; errors reset, raise or are dropped, branch by branch |
| Fetcher.Fetcher.TakeStoredException | lambda_layers/python/kafka/consumer/fetcher.py:321-326 | A stored exception is raised once, and only while its partition is still at the offset it was stored for |
| Subscriptions.TopicPartitionState.Seek | lambda_layers/python/kafka/consumer/subscription_state.py:496-500 | Seeking sets a valid position and ends any reset |
| Subscriptions.TopicPartitionState.Reset | lambda_layers/python/kafka/consumer/subscription_state.py:470-474 | Asking for a reset takes the position away |
| Subscriptions.SeekMeans | lambda_layers/python/kafka/consumer/subscription_state.py:496-500 | A seek leaves a partition valid, and fetchable unless paused; the pause and the high watermark stay |
| Subscriptions.ResetMeans | lambda_layers/python/kafka/consumer/subscription_state.py:470-474 | A reset leaves it without position, awaiting the reset, not fetchable and not missing |
| Subscriptions.NothingIsLeftMissing | lambda_layers/python/kafka/consumer/subscription_state.py:392-403 | With a policy no position is left missing, and what is not missing is not touched |
| Subscriptions.SubscriptionState.SetAssignment | lambda_layers/python/kafka/consumer/subscription_state.py:256-268 | The assignment becomes the given states, one object per partition |
| Subscriptions.SubscriptionState.AssignFromUser | lambda_layers/python/kafka/consumer/subscription_state.py:208-231 | Partitions that stay keep their state, new ones start without position |
| Subscriptions.SubscriptionState.AssignFromSubscribed | lambda_layers/python/kafka/consumer/subscription_state.py:233-254 | A group assignment starts every partition anew |
| Subscriptions.SubscriptionState.Unsubscribe | lambda_layers/python/kafka/consumer/subscription_state.py:270-277 | No partition stays assigned |
| Subscriptions.SubscriptionState.RequestOffsetReset | lambda_layers/python/kafka/consumer/subscription_state.py:347-357 | A reset of an assigned partition, and of no other |
| Subscriptions.SubscriptionState.ResetMissingPositions | lambda_layers/python/kafka/consumer/subscription_state.py:392-403 | Exactly the partitions without position and reset get a reset; without a policy it raises when there is one |
| FetchSession.Replicated | lambda_layers/python/kafka/consumer/fetcher.py:1114-1260 | In every run of build, send, answer, loss, error, eviction and late processing, whenever the client is incremental and the broker still holds the session, the broker's map is `session_partitions` and the epoch it expects by the rule of KIP-227 is the client's, across the wrap to 1 |
| FetchSession.EpochCounts | lambda_layers/python/kafka/consumer/fetcher.py:1199-1246 | In every run, the epoch of an incremental client is one more than the number of responses that have continued its session, round the end of 32 bits |
| FetchSession.NextRequest | lambda_layers/python/kafka/consumer/fetcher.py:1114-1246 | After any response: whether it is accepted, and the session, the epoch and the partitions of the request that follows |
| FetchSession.NextRequestAfterError | lambda_layers/python/kafka/consumer/fetcher.py:1213-1215 | After a failed request the next one names all partitions and closes the session |
| FetchSession.DeltaIsLeast | lambda_layers/python/kafka/consumer/fetcher.py:1130-1146 | No request that rebuilds the wanted map names fewer partitions |
| FetchSession.AcceptedPartitionsHaveOffsets | lambda_layers/python/kafka/consumer/fetcher.py:744-786 | Every partition of an accepted response has an entry in `fetch_offsets` |
| FetchSession.ThrottleKeepsSyncIffNoChange | lambda_layers/python/kafka/consumer/fetcher.py:1148-1211 | After a throttled answer to an incremental request the two sides agree if and only if the request carried no change |
| FetchSession.ThrottledChangeDiverges | lambda_layers/python/kafka/consumer/fetcher.py:1148-1211 | A run from the start to an incremental session, and a throttled answer after which the broker lacks the partition that the client believes it has |
| FetchSession.DeltaRebuilds | lambda_layers/python/kafka/consumer/fetcher.py:1114-1146 | Applying `to_forget` and `to_send` to the old map gives the wanted map |
| FetchSession.StrayIsHarmless | lambda_layers/python/kafka/consumer/fetcher.py:1114-1260 | A request given up on, processed at any later time, touches no session the client relies on |
| FetchSession.FetchSessionHandler.BuildNextRequest | lambda_layers/python/kafka/consumer/fetcher.py:1114-1146 | The loops over added, removed and altered partitions leave `session_partitions` at the wanted map and send exactly the difference |
| FetchSession.FetchSessionHandler.HandleFetchResponse | lambda_layers/python/kafka/consumer/fetcher.py:1148-1211 | All branches of accepting a full or incremental response |
| FetchSession.FetchSessionHandler.HandleFetchError | lambda_layers/python/kafka/consumer/fetcher.py:1213-1214 | A failed request closes the session |
| Varint.EncodeVarint1 | lambda_layers/python/kafka/benchmarks/varint_speed.py:87-114 | Emits the encoding when it has at most ten bytes, and raises ValueError exactly otherwise |
| Varint.EncodeVarint2 | lambda_layers/python/kafka/benchmarks/varint_speed.py:117-127 | Emits the same encoding for every integer |
| Varint.EncodeVarint3 | lambda_layers/python/kafka/benchmarks/varint_speed.py:130-141 | Appends the same encoding and returns 0 |
| Varint.EncodeVarint4 | lambda_layers/python/kafka/benchmarks/varint_speed.py:144-175 | The unrolled branches and the general loop emit the same encoding |
| Varint.EncodeVarint5 | lambda_layers/python/kafka/benchmarks/varint_speed.py:178-188 | Writes the encoding over the buffer from `pos` and returns its end; a buffer too short, or ending before `pos`, raises with the bytes that fit written |
| Varint.EncodeVarint6 | lambda_layers/python/kafka/benchmarks/varint_speed.py:191-231 | Appends the same encoding; the count returned is one short in the general path, and only there |
| Varint.CountIsRightIffUnrolled | lambda_layers/python/kafka/benchmarks/varint_speed.py:191-231 | That count is the number of bytes if and only if there are at most five; for 2^34 it is 5 and there are 6 |
| Varint.SizeOfVarint1 | lambda_layers/python/kafka/benchmarks/varint_speed.py:234-244 | The length of the encoding |
| Varint.SizeOfVarint2 | lambda_layers/python/kafka/benchmarks/varint_speed.py:247-269 | The length of the encoding below 2^70, and 10 from there on |
| Varint.DecodeVarint1 | lambda_layers/python/kafka/benchmarks/varint_speed.py:290-320 | Value and end position of the reference decoding; the end of the buffer is a ValueError |
| Varint.DecodeVarint2 | lambda_layers/python/kafka/benchmarks/varint_speed.py:323-335 | Value, end position and error of the reference decoding |
| Varint.DecodeVarint3 | lambda_layers/python/kafka/benchmarks/varint_speed.py:338-356 | The same, one-byte integers first |
| Varint.UnzigzagUndoesIffInt64 | lambda_layers/python/kafka/benchmarks/varint_speed.py:97-101 | Zigzag with a shift by 63 is undone if and only if the value is a 64-bit integer |
| Varint.EncodingLength | lambda_layers/python/kafka/benchmarks/varint_speed.py:234-269 | A 64-bit integer takes 1 to 10 bytes; ten are enough exactly below 2^70 |
| Varint.DecodingUndoesEncoding | lambda_layers/python/kafka/benchmarks/varint_speed.py:290-356 | Decoding an encoding, wherever it stands in a buffer, gives the value and stops just behind it |
| Varint.ConcatenationDecodes | lambda_layers/python/kafka/benchmarks/varint_speed.py:290-356 | Encodings written one after the other decode to the sequence of values |
| GroupSafety.JoinGroupIsFenced | lambda_layers/python/kafka/coordinator/base.py:397-434 | In every run, whenever a JoinGroup is sent: no earlier JoinGroup is unanswered or unhandled at any node, every earlier join future is done and the coordinator's own heartbeat thread is off; all heartbeat threads are off if and only if none was dropped while enabled and running; and if that never happened, nothing is in flight to the coordinator |
| GroupSafety.JoinGroupGoesOutAloneIff | lambda_layers/python/kafka/coordinator/base.py:479-497 | At every state of every run in which the foreground thread is about to send a JoinGroup, that of the sending step included: however the run goes on, it goes out with nothing in flight to the coordinator if and only if nothing is in flight to a known coordinator now, no heartbeat thread is inside its section and, should the group be STABLE, none was dropped while enabled and running |
| GroupSafety.OrphanDisturbsJoin | lambda_layers/python/kafka/coordinator/base.py:356-376 | The run in which a thread is fenced, enabled by the next join, dropped while it runs, and heartbeats between the drained check and the next JoinGroup |
| GroupSafety.DrainedCheckIsEnoughIffStill | lambda_layers/python/kafka/coordinator/base.py:479-497 | Once nothing is found in flight to a known coordinator: whatever the other threads do, this holds until the JoinGroup is sent if and only if no heartbeat thread is inside its section and, should the group be STABLE, none was dropped while enabled and running |
| GroupSafety.HeartbeatAvoidsJoin | lambda_layers/python/kafka/coordinator/base.py:1166-1236 | In every run, a heartbeat, of a dropped thread too, is sent only while no join future is pending |
| GroupSafety.CallbacksAlternate | lambda_layers/python/kafka/coordinator/base.py:453-511 | Over any run, calls that time out midway included, the calls of `_on_join_prepare` that return and the calls of `_on_join_complete` strictly alternate; a prepare that raises or times out is no such event and is called again |
| GroupSafety.ReturnedAlternateIffNoneRaised | lambda_layers/python/kafka/coordinator/base.py:501-511 | The calls that return alternate if and only if no `_on_join_complete` before the last call raised |
| GroupSafety.RaisingBreaksAlternation | lambda_layers/python/kafka/coordinator/base.py:501-511 | A concrete run in which it raises and the next join prepares again |
| GroupSafety.OutcomeIsFinal | lambda_layers/python/kafka/coordinator/base.py:600-620 | A join future completes once: the SyncGroup that is sent although the future has failed changes nothing |
| GroupRejoin.ForgottenIffClearedUnjoined | lambda_layers/python/kafka/coordinator/base.py:880-885 | In any run in which `need_rejoin` answers by its flag: the member is at some point out of the group (UNJOINED) without a rejoin being asked for if and only if `join_group` at some point clears the flag although the member has fallen out of the group since its join succeeded |
| GroupRejoin.ResetIsForgotten | lambda_layers/python/kafka/coordinator/base.py:500-508 | A run in which a heartbeat is answered UNKNOWN_MEMBER_ID before the flag is cleared, and the request to rejoin is lost |
| GroupRejoin.StaysForgotten | lambda_layers/python/kafka/coordinator/base.py:453-455 | With nothing in flight, such a member stays out of the group in any run, until the subscription changes, a commit is sent or it leaves for good |
| GroupMembership.StepKeepsInv | lambda_layers/python/kafka/coordinator/base.py:453-525 | The inductive core, kept by every step of any thread, the fenced heartbeat and the dropped thread included: from the fence to the success of the join the coordinator's own heartbeat thread is off, while a join is pending no thread at all is in its section, only the join future is pending, and one exchange at most can complete it |
| GroupAnswers.AnswersTakeEffect | lambda_layers/python/kafka/coordinator/base.py:586-1050 | In any run: once an answer that ends the generation has been handled, a rejoin is asked for until the flag is cleared; one that says that the member is not in the group leaves it UNJOINED; and one that says that the coordinator is not one leaves none known |
| GroupAnswers.AnswerMeans | lambda_layers/python/kafka/coordinator/base.py:586-1050 | All that an answer of each kind to each request causes: the flag, the coordinator, the state, the join future and the threads, and nothing else |
| GroupAnswers.GrantedJoinMeans | lambda_layers/python/kafka/coordinator/base.py:600-629 | A JoinGroup that is granted leads to a SyncGroup for the same future; the future fails if the member no longer joins or it cannot be sent |
| GroupAnswers.JoinStarts | lambda_layers/python/kafka/coordinator/base.py:397-434 | A rebalance under way is come back to; otherwise a JoinGroup is tried with a future of its own |
| GroupAnswers.LeavingMeans | lambda_layers/python/kafka/coordinator/base.py:930-955 | A member that is in the group and has an id says that it leaves, if the coordinator is known; any other leaves in silence |
| GroupAnswers.HavingLeftMeans | lambda_layers/python/kafka/coordinator/base.py:880-885 | Who has left is UNJOINED and wants to join again |
| GroupAnswers.BeatStartsMean | lambda_layers/python/kafka/coordinator/base.py:1166-1186 | A thread starts its round only if enabled, and switches itself off unless the group is STABLE |
| GroupAnswers.BeatEndsMean | lambda_layers/python/kafka/coordinator/base.py:1188-1236 | The other ends of a round: waiting, giving up the coordinator, the end of the thread |
| GroupAnswers.ThreadsMean | lambda_layers/python/kafka/coordinator/base.py:890-904 | Threads are started switched off and only if there is none; one that has failed is let go of; joining switches the own one off |
| Coordinator.BaseCoordinator.JoinGroup | lambda_layers/python/kafka/coordinator/base.py:453-525 | The loop, with other threads doing whatever they can between any two accesses, takes only steps of the state machine, so every theorem about runs holds of it; however often it goes round, `_on_join_prepare` returns at most once and only if no rebalance was under way; `_on_join_complete` is called exactly when the call answers Joined or it raised itself, and then the rebalance is over and no join future is kept |
| Coordinator.BaseCoordinator.RunOnce | lambda_layers/python/kafka/coordinator/base.py:1166-1236 | One round of any heartbeat thread, with others running during its poll, takes only steps of the state machine and leaves its section; a disabled thread does nothing and one that finds the group not STABLE just disables itself; behind the poll, a heartbeat is tried exactly when the coordinator is known and connected, neither timeout has expired and one is due, and the other endings come in the order of the source |
| Coordinator.JoinGroupsInTraceAreFenced | lambda_layers/python/kafka/coordinator/base.py:397-525 | Whatever the object has been through, each JoinGroup it sent went out with no other under way and its own heartbeat thread off, and with every thread off if and only if there was no dropped one |
| Coordinator.BaseCoordinator.DrainRequests | lambda_layers/python/kafka/coordinator/base.py:479-491 | The loop ends with nothing in flight to the coordinator at the check, back at the head of the outer loop when there is no coordinator, or timed out |
| Coordinator.BaseCoordinator.PrepareAndFence | lambda_layers/python/kafka/coordinator/base.py:458-477 | `_on_join_prepare`, and only if it returns the flag and the fence |
| Coordinator.BaseCoordinator.AwaitJoin | lambda_layers/python/kafka/coordinator/base.py:493-498 | The future is looked at once it is done, and then no longer kept; otherwise the call times out and keeps it |
| Coordinator.BaseCoordinator.CompleteJoin | lambda_layers/python/kafka/coordinator/base.py:500-507 | Three steps in this order, with only steps of others in between: the rejoining flag falls, the need to rejoin is cleared, `_on_join_complete` is called, once; if nobody interferes behind the clearing, no rejoin is asked for |
| Coordinator.BaseCoordinator.HandleJoinGroupResponse | lambda_layers/python/kafka/coordinator/base.py:600-674 | All branches of the response, the fall-through to SyncGroup after failing the future included |
| Coordinator.BaseCoordinator.HandleSyncGroupResponse | lambda_layers/python/kafka/coordinator/base.py:756-792 | Success enables the heartbeat thread; every error asks for a rejoin and fails the future |
| Coordinator.BaseCoordinator.HandleHeartbeatResponse | lambda_layers/python/kafka/coordinator/base.py:1251-1271 | A fenced heartbeat fails and disables the thread that sent it; every other error is handled as a commit's |
| Coordinator.BaseCoordinator.Handle | lambda_layers/python/kafka/coordinator/base.py:586-598 | Whatever exchange is answered or fails, its handler takes the step of that name, in place, and keeps the invariant |
| Futures.ExactlyOnce | lambda_layers/python/kafka/future.py:33-94 | Under any interleaving of one completing and any number of registering threads, once they are through each callback has been called exactly once if the future succeeded and never if it failed; dually for errbacks |
| Futures.AtMostOnce | lambda_layers/python/kafka/future.py:33-94 | At every moment no registration has been called twice, none of the wrong kind at all, and every call got the completion's value |
| Futures.MissedIffSkipped | lambda_layers/python/kafka/future.py:87-94 | With `error_on_callbacks` a registration is missed exactly when it stands behind one that raised |
| Futures.GoesOnIff | lambda_layers/python/kafka/future.py:87-94 | Behind a callback the thread goes on to the next if there is one, unless it raised and `error_on_callbacks` is set |
| Futures.StoppedForGood | lambda_layers/python/kafka/future.py:87-94 | Once stopped, it calls none any more in any run |
| Futures.ChainCompletesOnce | lambda_layers/python/kafka/future.py:82-85 | Of the two registrations of `chain` exactly one is called, once, and it is the one of the outcome |
| Futures.Future.Complete | lambda_layers/python/kafka/future.py:33-51 | The section under the lock sets the outcome |
| Futures.Future.Add | lambda_layers/python/kafka/future.py:53-75 | Registers before completion; calls at once after a matching completion; drops otherwise |
| Futures.Future.CallNext | lambda_layers/python/kafka/future.py:87-94 | One round of the loop over the callbacks |
| Protocol.ChunksDoNotMatter | lambda_layers/python/kafka/protocol/parser.py:78-133 | However the bytes from the socket are cut into chunks, the responses and the parser are the same, also after a fault |
| Protocol.FramesAreRead | lambda_layers/python/kafka/protocol/parser.py:78-133 | A stream of length-prefixed messages is read message by message, each answering the oldest request left |
| Protocol.AnswersInOrder | lambda_layers/python/kafka/protocol/parser.py:135-172 | The responses of any data carry the ids of the oldest requests in order; the others stay in flight |
| Protocol.FrameIsRefused | lambda_layers/python/kafka/protocol/parser.py:135-172 | A frame that cannot be decoded, or that nobody waits for, ends the reading with its fault; nothing is handed out for it and its request is no longer in flight |
| Protocol.JoinedIsFrames | lambda_layers/python/kafka/protocol/parser.py:46-76 | The bytes that are written for a queue of messages are the stream that is read back message by message |
| Protocol.LeftoverHeaderIsUsedAgain | lambda_layers/python/kafka/protocol/parser.py:96-133 | After a frame whose decoding raised, the next bytes are taken for a payload of the same length, header of the next frame and all |
| Protocol.NegativeLengthSticks | lambda_layers/python/kafka/protocol/parser.py:105-110 | After a negative length every further call with data raises again |
| Bytes.DecodesTwosComplement | lambda_layers/python/kafka/protocol/parser.py:105-108 | Four bytes are a signed number in two's complement |
| Protocol.KafkaProtocol.ReceiveBytes | lambda_layers/python/kafka/protocol/parser.py:78-133 | The loop over header and payload slices computes the byte-by-byte parser, faults and calls after a fault included |
| Protocol.KafkaProtocol.ReadHeader | lambda_layers/python/kafka/protocol/parser.py:96-112 | The first half of the loop body |
| Protocol.KafkaProtocol.ReadPayload | lambda_layers/python/kafka/protocol/parser.py:114-132 | The second half of the loop body |
| Protocol.KafkaProtocol.ProcessResponse | lambda_layers/python/kafka/protocol/parser.py:135-172 | Answers the oldest request, or raises |
| Protocol.KafkaProtocol.SendRequest | lambda_layers/python/kafka/protocol/parser.py:46-70 | Takes the next correlation id, wrapping at 2^31, and queues the framed message |
| Protocol.KafkaProtocol.SendBytes | lambda_layers/python/kafka/protocol/parser.py:72-76 | Hands over all queued frames in order, once |
| Connection.ExactlyOnePlace | lambda_layers/python/kafka/conn.py:938-1038 | Over any sequence of send, recv, close, timeouts and completions each future is exactly one of in flight, handed out by `recv`, or completed, and completed once at most; DISCONNECTED implies nothing in flight |
| Connection.RecvHandsOutOldest | lambda_layers/python/kafka/conn.py:1126-1158 | In any run, good data makes `recv` return one future per response, those of the oldest requests in order; no id is unknown, because connection and parser agree on what is in flight |
| Connection.RecvIsAlwaysPossible | lambda_layers/python/kafka/conn.py:1126-1213 | In any run, ValueErrors of the parser included, the parser is in a state that further data can be given to |
| Connection.SendRespectsMaximum | lambda_layers/python/kafka/conn.py:986-1010 | Over any run, no more requests are in flight than the maximum and as many as were sent internally, past `send`; without such, never more than the maximum |
| ConnectionOutcomes.TimesOutIff | lambda_layers/python/kafka/conn.py:1126-1140 | In any run, when `recv` gets no response: if the deadline of a request in flight (when it was sent, and its own timeout or the configured one) has come, the connection closes and everything in flight fails with a timeout; otherwise everything stays in flight |
| ConnectionOutcomes.SendMeans | lambda_layers/python/kafka/conn.py:986-1038 | When `send` refuses, and with which error: not connected, throttled, at the maximum; otherwise the request is on its way with its deadline |
| ConnectionOutcomes.ThrottleMeans | lambda_layers/python/kafka/conn.py:1103-1124 | After a response that asks to wait, `send` refuses until the later of the old and the new end of the wait, and no longer; a response that does not ask ends it |
| ConnectionOutcomes.CloseMeans | lambda_layers/python/kafka/conn.py:938-980 | Closing fails every future in flight with the error given, or as cancelled, and touches no other |
| ConnectionOutcomes.FailedRecvMeans | lambda_layers/python/kafka/conn.py:1160-1213 | A socket error and a protocol error close the connection with their error; a ValueError leaves it open |
| Connection.UnknownIdLosesWhatWasPopped | lambda_layers/python/kafka/conn.py:1143-1149 | Against a parser out of step: no future is lost if and only if the first response has the unknown id |
| BrokerConnections.BrokerConnection.Close | lambda_layers/python/kafka/conn.py:938-980 | Fails exactly the futures in flight, once each, and starts a new parser |
| BrokerConnections.BrokerConnection.CanSendMore | lambda_layers/python/kafka/conn.py:1119-1124 | Not throttled and below the maximum; an elapsed throttle is forgotten |
| BrokerConnections.BrokerConnection.Send | lambda_layers/python/kafka/conn.py:986-1010 | The refusals in their order, with nothing queued, or the request is queued and its frame waits last or is written with all that wait |
| BrokerConnections.BrokerConnection.SendNow | lambda_layers/python/kafka/conn.py:1012-1060 | Queued under its correlation id if a response is expected, complete at once otherwise; its frame waits behind the others, or a blocking send writes all of them in order; a failing write closes the connection |
| BrokerConnections.BrokerConnection.SendPendingRequests | lambda_layers/python/kafka/conn.py:1040-1060 | All that waits is written in order and waits no more; a failing write closes the connection |
| BrokerConnections.BrokerConnection.PopFutures | lambda_layers/python/kafka/conn.py:1142-1156 | The loop over the responses; an unknown id closes and returns nothing |
| BrokerConnections.BrokerConnection.Recv | lambda_layers/python/kafka/conn.py:1126-1213 | All branches of reading: not connected, socket error, protocol error, timeout, responses |
| BrokerConnections.BrokerConnection.MaybeThrottle | lambda_layers/python/kafka/conn.py:1103-1117 | The throttle ends never earlier than asked for |
| ProducerBatches.FirstTerminalCallDecides | lambda_layers/python/kafka/producer/producer_batch.py:79-159 | Whatever is appended and called around it, the first terminal call sets the final state, and every record, also one appended late, completes exactly once: failing iff the state is ABORTED or FAILED, otherwise with the base offset plus its index (base -1 stays -1) and the time of the broker if it gave one |
| ProducerBatches.FinalStateIsFinal | lambda_layers/python/kafka/producer/producer_batch.py:116-154 | The final state, the produce result and every completed record future never change afterwards |
| ProducerBatches.NothingCompletesBefore | lambda_layers/python/kafka/producer/producer_batch.py:61-77 | No record future completes before a terminal call |
| ProducerBatches.RecordsAreThoseThatFit | lambda_layers/python/kafka/producer/producer_batch.py:61-77 | The records of a batch are those that fitted, in order, each with its index and time, whatever else is called |
| ProducerBatches.ProducerBatch.TryAppend | lambda_layers/python/kafka/producer/producer_batch.py:61-77 | A record that fits gets the next index; its future completes at once if the batch is done |
| ProducerBatches.ProducerBatch.Abort | lambda_layers/python/kafka/producer/producer_batch.py:79-86 | Raises exactly when the batch is in a final state |
| ProducerBatches.ProducerBatch.Done | lambda_layers/python/kafka/producer/producer_batch.py:116-154 | True for the first call, False after a failure, an exception after a success |
| ProducerBatches.ProducerBatch.CompleteProduceFuture | lambda_layers/python/kafka/producer/future.py:31-60 | Every record future registered so far gets its own outcome, once |
| ProducerBatches.ProducerBatch.Retry | lambda_layers/python/kafka/producer/producer_batch.py:168-173 | One more attempt, in retry, and no record or future touched |
| Socks5.Socks5Wrapper.ConnectEx | lambda_layers/python/kafka/socks5_wrapper.py:122-274 | One call, resumed from wherever earlier calls stopped, however reads and writes were chunked: success and refusal come with exactly the bytes sent and consumed that the verdict on the whole stream names, and at success nothing is left in the buffer, so the socket stands right behind the last byte of the handshake; otherwise the handshake can go on, with no more buffered than its stage asks for |
| Socks5.Socks5Wrapper.TakesOnlyItsOwn | lambda_layers/python/kafka/socks5_wrapper.py:97-120 | However a call ends, a handshake that is to succeed has not taken a byte off the socket that is not one of its own |
| Socks5.CompleteIffAgreed | lambda_layers/python/kafka/socks5_wrapper.py:135-265 | COMPLETE is reached if and only if the proxy agreed throughout; then greeting, authentication (iff chosen) and request have been sent once each in order and the replies consumed to their last byte, short only if the proxy closed inside the address |
| Socks5.ShortReplyCompletes | lambda_layers/python/kafka/socks5_wrapper.py:113-120 | A concrete reply of two bytes after which the proxy hangs up and the handshake completes |
| Socks5.NotOneByteMore | lambda_layers/python/kafka/socks5_wrapper.py:250-262 | A success has consumed, and by the contract of `ConnectEx` taken off the socket, exactly the bytes that decide it if and only if it has consumed the whole reply; the one other case is a reply cut short by the end of the stream |
| Socks5.MoreBytesDoNotMatter | lambda_layers/python/kafka/socks5_wrapper.py:135-265 | Once the bytes received decide, nothing that follows them changes the verdict |
| Socks5.ProxyReadsAllSent | lambda_layers/python/kafka/socks5_wrapper.py:146-237 | A proxy that follows sections 3 and 4 of RFC 1928 and section 2 of RFC 1929 reads off exactly the offer, the credentials and the target, with nothing left over |
| Socks5.TypeFourIsRefused | lambda_layers/python/kafka/socks5_wrapper.py:252-261 | A reply with address type 4, IPv6 in section 6 of RFC 1928, is refused |
| Socks5Outcomes.EndsIff | lambda_layers/python/kafka/socks5_wrapper.py:146-261 | The handshake raises if and only if the credentials that the proxy asks for or the name of the target cannot be packed; it refuses the proxy if and only if that offers no known method, does not accept the credentials, or does not grant the request with a known address type, or the target has no known family |
| Socks5Outcomes.MessagesMean | lambda_layers/python/kafka/socks5_wrapper.py:135-237 | A password is offered just if both words are given and not empty; credentials and names of up to 127 bytes can be packed |
| Socks5.Socks5Wrapper.FlushBuf | lambda_layers/python/kafka/socks5_wrapper.py:87-95 | What was sent and what waits stay the same bytes |
| Socks5.Socks5Wrapper.PeekBuf | lambda_layers/python/kafka/socks5_wrapper.py:97-111 | Gives the next bytes of the stream without consuming them and without receiving more than are missing; what has arrived survives a would-block |
| Socks5.Socks5Wrapper.ReadBuf | lambda_layers/python/kafka/socks5_wrapper.py:113-120 | Consumes exactly what it returns, and leaves nothing in the buffer that it has not returned |
| ConnectionPool.PoolIsSafe | lambda_layers/psycopg2/python/psycopg2/pool.py:53-144 | From a new pool, in every reachable state with honest putbacks: the invariant holds, with keys of the pool's own no connection is held twice, and after `closeall` every connection ever created is closed |
| ConnectionPool.ReachableStatesAreSound | lambda_layers/psycopg2/python/psycopg2/pool.py:53-144 | `_used` and `_rused` are mutual inverses, `_pool` has no repetition and no used connection, |pool| <= minconn, |pool| + |used| <= maxconn, and no connection is forgotten |
| ConnectionPool.NoSharing | lambda_layers/psycopg2/python/psycopg2/pool.py:71-93 | With auto keys only, no two outstanding `getconn` calls share a connection |
| ConnectionPool.HonestPutHasNoKeyError | lambda_layers/psycopg2/python/psycopg2/pool.py:95-128 | A putback under the own key never fails half-way |
| ConnectionPool.PutKeepsInvIff | lambda_layers/psycopg2/python/psycopg2/pool.py:95-128 | In any sound open pool, a putback with a key leaves it sound if and only if the database has to be asked (the pool is full, `close` is set, or the connection is open and not idle) and raises; the key is the connection's own; or the key is unknown and the connection does not go to the pool (full, `close`, closed before, or of unknown status) |
| ConnectionPool.PuttingBackTwiceShares | lambda_layers/psycopg2/python/psycopg2/pool.py:95-128 | A concrete run that puts a connection back twice under its old key and hands it out twice |
| PoolService.GetsAreServedIff | lambda_layers/psycopg2/python/psycopg2/pool.py:71-93 | From a new pool, n calls without a key are all served with different connections if and only if n <= maxconn, or minconn > maxconn, when the pool is never exhausted |
| PoolService.GetMeans | lambda_layers/psycopg2/python/psycopg2/pool.py:76-93 | A key in use gives its connection; otherwise the one put back last is handed out; with none free, the pool is exhausted just at `maxconn` in use, and opens one otherwise |
| PoolService.ExhaustedIff | lambda_layers/psycopg2/python/psycopg2/pool.py:88-92 | A sound open pool refuses a new key only with `maxconn` connections in use |
| PoolService.OwnNumberIsShared | lambda_layers/psycopg2/python/psycopg2/pool.py:71-84 | A call without a key gets a connection in use if and only if a user has taken the number that it comes to |
| PoolService.FirstNumberIsShared | lambda_layers/psycopg2/python/psycopg2/pool.py:71-84 | The run in which a user takes key 1 and the first call without a key gets the same connection |
| PoolService.PutMeans | lambda_layers/psycopg2/python/psycopg2/pool.py:95-128 | A connection put back is free again, rolled back if need be, or closed, by the room, its state and `close`; nothing changes if the database raises |
| PoolService.PutUnderWrongKey | lambda_layers/psycopg2/python/psycopg2/pool.py:95-128 | What a putback under another key leaves, and when a KeyError follows |
| PoolService.CloseAllMeans | lambda_layers/psycopg2/python/psycopg2/pool.py:130-144 | Closing the pool closes what is free and what is in use; afterwards every call is refused |
| ConnectionPool.AbstractConnectionPool.GetConn | lambda_layers/psycopg2/python/psycopg2/pool.py:76-93 | All branches of `_getconn` |
| ConnectionPool.AbstractConnectionPool.PutConn | lambda_layers/psycopg2/python/psycopg2/pool.py:95-128 | All branches of `_putconn`, what is left behind when it raises included |
| ConnectionPool.AbstractConnectionPool.CloseAllConns | lambda_layers/psycopg2/python/psycopg2/pool.py:130-144 | Closes the free and the used connections |
| ConnectionPool.AbstractConnectionPool.Connect | lambda_layers/psycopg2/python/psycopg2/pool.py:61-69 | A new connection goes to its key, or into the pool |
| IdleConnections.PollAgreesWithScan | lambda_layers/python/kafka/client_async.py:1242-1264 | In every reachable state with a clock that does not go back, the poll returns None exactly when a scan of all connections finds none expired, and otherwise one that none has been idle longer than |
| IdleConnections.SleepingMissesNothing | lambda_layers/python/kafka/client_async.py:1230-1237 | No connection expires before the time that `next_check_ms` lets the client sleep is up |
| IdleConnections.PollFindsIdle | lambda_layers/python/kafka/client_async.py:1215-1264 | In every run: if a connection that was used and not removed has been idle for the maximum, the poll returns one, and what it returns has been idle longest; a maximum of zero or less is none |
| IdleConnections.LruIsLastUse | lambda_layers/python/kafka/client_async.py:1215-1223 | The ordered map holds exactly the connections used and not removed since, with their last use |
| IdleConnections.SleepsUntilOldest | lambda_layers/python/kafka/client_async.py:1230-1260 | A poll that has looked in vain lets the client sleep just until the oldest connection expires |
| IdleConnections.GateIsShut | lambda_layers/python/kafka/client_async.py:1242-1247 | A poll before the time of the gate looks at nothing and changes nothing |
| IdleConnections.StepKeepsInv | lambda_layers/python/kafka/client_async.py:1215-1240 | The map stays sorted by time and the gate never stands behind an expiry |
| IdleConnections.IdleConnectionManager.UpdateId | lambda_layers/python/kafka/client_async.py:1215-1219 | The connection moves to the end with the current time |
| IdleConnections.IdleConnectionManager.RemoveId | lambda_layers/python/kafka/client_async.py:1221-1223 | Removes that connection only |
| IdleConnections.IdleConnectionManager.PollExpiredConnection | lambda_layers/python/kafka/client_async.py:1242-1264 | Gate, oldest entry, new gate, answer |
| CompositeParser.TokenizeUndoesPrintIffColumns | lambda_layers/psycopg2/python/psycopg2/extras.py:1036-1057 | Tokenizing PostgreSQL's output of a row gives back exactly its fields (NULL, quoted, unquoted, with any quotes, commas, parentheses and backslashes) if and only if the row has a column |
| CompositeParser.TokenizeUndoesPrint | lambda_layers/psycopg2/python/psycopg2/extras.py:1036-1057 | The same for every permitted choice of which fields are quoted |
| CompositeParser.EmptyRowIsReadAsNull | lambda_layers/psycopg2/python/psycopg2/extras.py:1036-1057 | A row without columns prints like one NULL and is read as that |
| CompositeParser.UndoubleFrom | lambda_layers/psycopg2/python/psycopg2/extras.py:1042 | Halving doubled quotes and backslashes undoes doubling |
| CompositeParser.Tokenize | lambda_layers/psycopg2/python/psycopg2/extras.py:1045-1057 | The loop over the matches |
| HstoreParser.ParseUndoesPrint | lambda_layers/psycopg2/python/psycopg2/extras.py:837-881 | Parsing PostgreSQL's hstore output gives back exactly the map, for all keys and values |
| HstoreParser.ParsedCoversAll | lambda_layers/psycopg2/python/psycopg2/extras.py:864-879 | When parsing succeeds its matches follow each other over the whole text: nothing is passed over |
| HstoreParser.UnescapeFrom | lambda_layers/psycopg2/python/psycopg2/extras.py:851-872 | Dropping the backslashes undoes escaping |
| HstoreParser.Parse | lambda_layers/psycopg2/python/psycopg2/extras.py:851-881 | The loop over the matches, with both errors |
| Regex.RunFirst | lambda_layers/psycopg2/python/psycopg2/extras.py:837-848 | A greedy repetition of a character class ends behind the last character of the run first |
| ValuesPager.StatementsCoverOnce | lambda_layers/psycopg2/python/psycopg2/extras.py:1288-1303 | For every query: when the execution completes, the statements are page by page the unescaped prefix, the comma-joined rows and the unescaped suffix of the query around its one placeholder; the pages hold the arguments in order, each once |
| ValuesPager.CompletesIff | lambda_layers/psycopg2/python/psycopg2/extras.py:1278-1303 | For every query: the execution completes if and only if the split succeeds and every page merges and is accepted |
| ValuesPager.BareNewlineIsRefused | lambda_layers/psycopg2/python/psycopg2/extras.py:1316-1335 | `"%s%\n"` is refused, `"%s %\n"` is not |
| ValuesPager.PiecesRender | lambda_layers/psycopg2/python/psycopg2/extras.py:1314 | Reading a query as characters, lone percent signs and formats leaves nothing out |
| ValuesPager.PaginationEndsIff | lambda_layers/psycopg2/python/psycopg2/extras.py:1175-1191 | The generator comes to an end, having yielded the pages, if and only if the page size is at least 1 |
| ValuesPager.PagesCoverOnce | lambda_layers/psycopg2/python/psycopg2/extras.py:1175-1191 | The pages are the argument list cut in order; none is empty and all but perhaps the last are full |
| ValuesPager.SplitMeans | lambda_layers/psycopg2/python/psycopg2/extras.py:1306-1335 | For every query: the split succeeds if and only if there is exactly one placeholder, no unsupported format and no text between formats that is a percent sign and a newline; then the snippets of either side, joined, are the unescaped query there |
| ValuesPager.ExecutionRunsPages | lambda_layers/psycopg2/python/psycopg2/extras.py:1292-1301 | One statement per page, up to the first that raises |
| ValuesPager.RowsMean | lambda_layers/psycopg2/python/psycopg2/extras.py:1296-1298 | Each row of a statement is the template merged with its argument |
| ValuesPager.Paginate | lambda_layers/psycopg2/python/psycopg2/extras.py:1175-1191 | The generator yields those pages |
| ValuesPager.SplitSqlLoop | lambda_layers/psycopg2/python/psycopg2/extras.py:1306-1335 | The loop over the tokens |
| ValuesPager.BuildStatement | lambda_layers/psycopg2/python/psycopg2/extras.py:1295-1301 | The parts list with its last comma replaced by the suffix |
| ValuesPager.ExecuteValues | lambda_layers/psycopg2/python/psycopg2/extras.py:1278-1303 | The whole call, with the template sniffed once from the first row |
| Xerial.RoundTripIffNotEmpty | lambda_layers/python/kafka/codec.py:142-228 | For any block size and lossless codec, decoding what was encoded gives the payload if and only if it is not empty or the codec takes the bare header for nothing |
| Xerial.BlocksRoundTrip | lambda_layers/python/kafka/codec.py:214-225 | The decode loop gives the payload and its cursor lands exactly on the end |
| Xerial.AnyVersionDecodes | lambda_layers/python/kafka/codec.py:195-205 | Whatever stands in the version and compatibility fields, the blocks decode |
| Xerial.HeaderMeans | lambda_layers/python/kafka/codec.py:163-205 | The sixteen bytes of the header, and the eight by which the format is made out |
| Xerial.EncodesWhenBlocksFit | lambda_layers/python/kafka/codec.py:163-169 | Encoding fails only for a block whose size does not fit its field |
| Xerial.SnappyEncode | lambda_layers/python/kafka/codec.py:142-170 | The loop over the chunks |
| Xerial.SnappyDecode | lambda_layers/python/kafka/codec.py:208-230 | Detection, the loop over the blocks, and the plain form |
| ClusterIndex.UpdateAgrees | lambda_layers/python/kafka/cluster.py:273-340 | After a response with distinct topics and partitions a partition is in `partitions_for_broker(b)` iff `leader_for_partition` gives b, for every b but -1 |
| ClusterIndex.AgreeIffListedLeadersStand | lambda_layers/python/kafka/cluster.py:273-316 | After any response the two queries agree if and only if every leader it lists for a partition, in a good topic entry, is the one given last in the last good entry of that topic |
| ClusterIndex.FinalIsLeader | lambda_layers/python/kafka/cluster.py:285-300 | The leader after any response is the one given last in the last good entry of the topic, if it is given there |
| ClusterIndex.RepeatedTopicDisagrees | lambda_layers/python/kafka/cluster.py:273-306 | A response that lists a topic twice with another leader: the first broker keeps a partition it does not lead |
| ClusterIndex.RepeatedPartitionDisagrees | lambda_layers/python/kafka/cluster.py:273-306 | The same with a partition listed twice in one topic |
| ClusterIndex.WithPartitionsAgrees | lambda_layers/python/kafka/cluster.py:408-425 | Adding new partitions of known topics keeps the agreement |
| ClusterIndex.AddKeepsIffNoOtherLeader | lambda_layers/python/kafka/cluster.py:418-423 | One added partition keeps the agreement if and only if it does not take the partition from another broker |
| ClusterIndex.WithAddedMeans | lambda_layers/python/kafka/cluster.py:408-425 | Adding partitions raises just for an unknown topic; otherwise each has the leader added last, each broker those it had and those it is added for, and nothing else changes |
| ClusterIndex.BuiltMeans | lambda_layers/python/kafka/cluster.py:273-306 | What the two maps hold after any response |
| ClusterIndex.ClusterMetadata.UpdateMetadata | lambda_layers/python/kafka/cluster.py:240-340 | The nested loops build both maps, the internal and the unauthorized topics; a response without brokers is ignored |
| ClusterIndex.ClusterMetadata.WithPartitions | lambda_layers/python/kafka/cluster.py:408-425 | The copy has the partitions added and otherwise starts as new objects do; an unknown topic raises and this object stays as it is |

## Left out

Deliberately weaker or bounded members:

- Fetcher.Fetcher.FetchedRecords: asks for a kept exception to raise, or a state in which the loop makes progress; in the other states the source does not return (FetchLoop.LoopEndsIffNotStuck).
- Fetcher.Fetcher.DrainFetches: asks for a state in which the loop makes progress, for the same reason.
- DeliveryComplete.DeliversExactly: covers `update_offsets=True`, and polls that return; on an unreadable record a poll may not (FetchLoop.OneFaultGetsStuck).
- DeliveryOrder.DeliversInOrder: covers `update_offsets=True` and responses whose batches are ordered and reach the fetch offset; with `update_offsets=False` the position is moved by the caller.
- FetchSession.Replicated: assumes that a broker never gives out a session id again; and it admits a throttled answer to an incremental request only when the request carried no change; the other case is ThrottleKeepsSyncIffNoChange.
- Connection.ExactlyOnePlace: leaves out SASL exchanges, which pop their own responses, and callbacks that call back into the connection while it closes.
- Connection.SendRespectsMaximum: asks, as the source asserts, that the next of the 2^31 correlation ids is not in flight.
- GroupMembership.StepKeepsInv: takes a response handler as one step; while a join is pending no heartbeat thread gets into its section and can look into it.
- Coordinator.BaseCoordinator.JoinGroup: runs for as many rounds and polls as the schedule it is given has, and may be left unfinished there; the source goes on until it times out.
- Xerial.SnappyDecode: stops at a block size of -4 or less, where the source moves its cursor back and need not end.
- ValuesPager.Paginate: asks for a page size of at least 1; with less the source's generator never ends (ValuesPager.PaginationEndsIff).
- ValuesPager.ExecuteValues: asks for the same, for the same reason.
- Socks5.ProxyReadsAllSent: takes credentials and names as bytes, one for each character.
- CompositeParser.Tokenize: the expression for doubled characters is written without its back-reference, as the two cases it stands for.

Not modelled:

- The order of partitions in the assignment (`move_partition_to_end`, the ordered dictionary of session partitions) and the metrics and high-water marks derived from it.
- Sending fetch requests to nodes, offset lookups by timestamp, and fetch versions below 7, which have no sessions.
- Topic subscription by pattern and the checks of the subscription type.
- Leader epochs, timestamps, headers and checksums of records, beyond whether the checksum is right.
- Finding the coordinator, the contents of the group messages and generations, the timers of the heartbeat, and closing the coordinator.
- DNS, TLS, SASL, selectors and sockets: a socket is a stream of bytes that may block at any point; clocks are inputs that do not go back.
- The wait with a timeout on a produce future, sizes and checksums in record metadata, and `done` called directly with arguments that `complete` and `complete_exceptionally` never pass.
- The threaded pool, whose methods are the modelled ones inside a lock.
- `mogrify`, `cast`, the fetching of results in `execute_values`, and encodings: parameters, or bytes taken as characters.
- Snappy itself: any lossless codec.
- Brokers, racks, controllers, coordinators and listeners of the cluster metadata.
- Code with little logic of its own: the Lambda and CDK configuration, admin client, assignors, murmur2, SQL composition, ranges, time zones, JSON and IP adapters.
