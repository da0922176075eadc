# A model of the RocketMQ client proxy

The proxy stands between a RocketMQ broker and gRPC clients. A broker thread hands it a batch of
messages and blocks until clients have fetched and acknowledged every message, one at a time; then
it returns one verdict for the batch and one entry per message. This project models that protocol,
the matcher that joins waiting clients to messages, the life cycle of the call handlers, the
keep-alive of consumers, the generated protobuf codec and the log batcher, and proves what they keep.

`dafny verify dfyconfig.toml` checks everything.

| file | what it holds |
|---|---|
| `Options.dfy` | the option type |
| `BatchModel.dfy` | one batch as a value, every operation on it, and what any history of operations makes of it |
| `ConsumerUnit.dfy` | the batch and the consumer as objects with their maps and queue, proved against `BatchModel` |
| `LockProtocol.dfy` | the broker threads, fetching, acknowledging and clearing threads as one step relation over program counters and locks |
| `LockSafety.dfy` | who holds which lock, lock order, freedom from deadlock, bounded holding |
| `LockVerdicts.dfy` | conservation, at-most-once delivery, final release, no lost wake-up |
| `LockCallbacks.dfy` | the verdict the callback returns, with overlapping checks and with unlockAll |
| `LockScans.dfy` | what an acknowledgement tells and a fetch looks at between taking the lock and letting it go |
| `LockCounterexamples.dfy` | runs that lose a wake-up, and exactly when there are any |
| `LockStale.dfy` | runs that return a wrong verdict, and exactly when there are any |
| `Matcher.dfy` | the matcher, the pending calls and all batches as one step relation |
| `MatcherCalls.dfy` | one answer per call, no use of a call after its answer |
| `MatcherWords.dfy` | everything that tells a message anything; when calls and guards time out, counted from the request |
| `MatcherGuards.dfy` | every unacknowledged message has something that will time it out, and a drained pool leaves every fetched batch released |
| `MatcherRuns.dfy` | runs that forget a message or strand a batch, and exactly when there are any |
| `MatcherDrain.dfy` | round robin, deadlines, termination of the inner loop |
| `MsgWorker.dfy` | the matcher's loop and the call handlers as methods that update fields, proved against `Matcher` |
| `Wire.dfy`, `Utf8.dfy`, `Codec.dfy` | wire primitives; which bytes are Unicode text; what serialising, parsing and merging a message mean |
| `CodecTheorems.dfy` | round trip, concatenation as merge, parsing in instalments, when reading is merging |
| `CodecObjects.dfy` | the size loop, both writers and the parser as methods, proved against `Codec` |
| `Handlers.dfy` | the CREATE/PROCESS/FINISH handlers under the event loop, and the Produce handler as an object |
| `KeepAlive.dfy` | a polled consumer against the reaper |
| `ProxyLogger.dfy` | the log batcher and its circuit breaker |

Atomicity. In `LockProtocol` every lock operation, predicate test, `setMsgStatus` and queue pop is a
step of its own, and `triggerCheck(false)` is many: it tests the queue, reads the units one by one in
any order, and publishes, while other holders of the shared lock go on. `unlockAll` takes one step a
batch; it holds the lock exclusively. Waiting on the condition variable releases the mutex and blocks
in one step, as section 30.5.1 of ISO/IEC 14882:2011 has it. In `Matcher` one iteration of the matcher
and one event of the completion queue are one step each, except that an acknowledgement is two:
`setMsgAck`, and then the mark on whatever unit `idUnitMap` has for the id by that time. Single field
and container operations are atomic throughout.

What was found false of the code is stated with the exact condition under which it holds:

* A wake-up can be lost if and only if the run has spurious wake-ups, `unlockAll`, or empty batches
  (`LosesExactly`): `triggerCheck` notifies without holding the batch mutex.
* The callback can return a verdict its batch does not call for if and only if two acknowledgements of
  the batch can overlap and tell one message both RECONSUME_LATER and something else, or a message can
  be told after `unlockAll` what differs from what it says then (`MisleadsExactly`): two checks can
  overlap under the shared lock, and a forced batch whose queue is not empty is not checked again. When
  acknowledgements do not overlap, a message may change its mind and the verdict is right (`ApartVerdict`).
* A delivered message can be left with nothing to time it out if and only if its id can arrive in two
  batches, at different consumers or with the matcher at work between the two halves of an
  acknowledgement (`ForgetsExactly`): `idUnitMap` is keyed by the id alone and read a second time.
* A fetched batch can be left unreleased with nothing to release it if and only if, besides, empty
  batches arrive, or an acknowledgement can come before its message was handed out, with the matcher
  at work between its halves (`StrandsExactly`).
* A guard served past its deadline overwrites what its message was told if and only if no
  acknowledgement had made its mark on it by then (`OverwritesExactly`). It does where an unknown
  acknowledgement, when its handler is deleted, erases the entry of `idUnitMap`
  (`UnknownAckOverwrites`), and where the matcher serves the guard between `setMsgAck` and the mark
  (`GapOverwrites`).
* The entries of a forced batch report as consumed what `unlockAll` has just marked for redelivery;
  right after the force they are sound if and only if everything had been acknowledged
  (`ForcedVectorSoundExactly`, with the input in `ForcedVectorExample`), and when the callback builds
  them, if and only if the verdict is not RECONSUME_LATER or every message was told something by then
  (`CallbackVerdict`).
* The entries agree with the last acknowledgement of every message if and only if no message was
  given another status after RECONSUME_LATER (`ReleasedVectorExact`).
* Parsing bytes over a message is merging the parsed message if and only if no field is assigned its
  default over something else (`ReadingIsMerging`).
* A message with a string that is not UTF-8 is written and then refused by the parser (`RoundTrip`).
* Every retry of a Produce request leaves one more handler listening (`AcceptSlots`).

## Model

| member | source | states |
|---|---|---|
| BatchModel.ReplayAccounted | MsgWorker.cpp:175-328 | After any operations in any order, forced or not, the queue is what is left of the order of arrival, every unit has the status last told for its id, or RECONSUME_LATER, and is acknowledged exactly if its id was told something or the batch was forced, and the sticky set holds the ids ever told RECONSUME_LATER |
| BatchModel.ReplayUnforced | MsgWorker.cpp:245-328 | One operation at a time and never forced, a released batch is besides fetched and acknowledged completely, and once what was told has been checked its status is RECONSUME_LATER exactly when the status of some unit is |
| BatchModel.ReleasedExactly | MsgWorker.cpp:305-328 | One operation at a time and never forced, a batch is released if and only if some check came after its last fetch and an acknowledgement of every id; over runs `LockCallbacks.ReleasedInRuns` |
| BatchModel.VectorEntries | MsgWorker.cpp:104-113 | Forced or not, one entry per message in order, RECONSUME_LATER exactly where some acknowledgement of that id said so |
| BatchModel.ReleasedVectorSound | MsgWorker.cpp:104-113 | No message whose last status is RECONSUME_LATER is reported as consumed |
| BatchModel.ReleasedVectorExact | MsgWorker.cpp:281-297 | The entries equal the last statuses if and only if nothing was given another status after RECONSUME_LATER |
| BatchModel.VectorSoundExactly | MsgWorker.cpp:104-113 | After any operations, forced or not, no message whose last status is RECONSUME_LATER is reported as consumed, if and only if the verdict is not RECONSUME_LATER or every message was told something |
| BatchModel.ForcedRelease | MsgWorker.cpp:175-190 | Right after unlockAll a batch is released, acknowledged units keep their status, all others are RECONSUME_LATER, and the verdict is success exactly when all had been acknowledged otherwise; the run that follows is the subject of `LockCallbacks` |
| BatchModel.ForcedVectorSoundExactly | MsgWorker.cpp:179-187 | Right after unlockAll the entries are sound if and only if every unit had been acknowledged, and each other unit is reported as consumed; for what the callback builds later see `LockCallbacks.CallbackVerdict` |
| BatchModel.ForcedVectorExample | MsgWorker.cpp:179-187 | The input: one unacknowledged message, forced, has verdict RECONSUME_LATER and entry CONSUME_SUCCESS |
| ConsumerUnits.IndexIsScan | MsgWorker.cpp:281-297 | Setting the units the index gives for an id is the scan over all units with that id, and the id is in the index exactly when there is such a unit |
| ConsumerUnits.AddedValid | MsgWorker.cpp:248-268 | Adding a message keeps the index a partition of the keys of both status maps by id, repeated ids included |
| ConsumerUnits.ConsumerUnitLocker.constructor | MsgWorker.cpp:245-269 | The loop over the messages builds the fresh batch, with the index in agreement |
| ConsumerUnits.ConsumerUnitLocker.GetMsg | MsgWorker.cpp:271-279 | The oldest unfetched unit leaves the queue, if there is one; nothing else changes |
| ConsumerUnits.ConsumerUnitLocker.SetMsgStatus | MsgWorker.cpp:281-297 | Every unit with the id takes both statuses, the sticky set remembers RECONSUME_LATER, and the result says whether there was such a unit |
| ConsumerUnits.ConsumerUnitLocker.TriggerCheck | MsgWorker.cpp:305-328 | In any order of iteration the loop releases the batch exactly when it may be, with RECONSUME_LATER exactly when some status is |
| ConsumerUnits.ConsumerUnitLocker.Verdict | MsgWorker.cpp:105-114 | The callback returns the batch status and, for RECONSUME_LATER, the vector |
| ConsumerUnits.ConsumerUnit.SetMsgAck | MsgWorker.cpp:229-243 | Every registered batch takes the acknowledgement, and the result says whether any knew the id |
| ConsumerUnits.ConsumerUnit.FetchAndConsume | MsgWorker.cpp:208-227 | A unit comes from the head of the queue of some registered batch whenever any has one, and no other batch changes |
| ConsumerUnits.ConsumerUnit.MarkRest | MsgWorker.cpp:179-186 | The inner loop of unlockAll acknowledges every unit and marks the unacknowledged ones for redelivery |
| ConsumerUnits.ConsumerUnit.UnlockAll | MsgWorker.cpp:175-190 | Every registered batch is forced |
| LockSafety.LocksAlways | MsgWorker.cpp:208-342 | In every run the locks held are those the program counters say, and every batch an iterator reaches is still registered |
| LockSafety.OwnerNeverWaits | MsgWorker.cpp:330-337 | A thread that holds a batch mutex never waits for lockersMtx or another mutex |
| LockSafety.DeadlockFree | MsgWorker.cpp:208-342 | Whenever a thread waits for a lock, it can take it or some lock holder can step |
| LockSafety.HoldingIsBounded | MsgWorker.cpp:208-342 | Every step of a lock holder brings its release nearer and no other thread's step puts it off |
| LockVerdicts.Conservation | MsgWorker.cpp:208-227 | In every run the units delivered so far followed by the queue are the messages in order |
| LockVerdicts.AtMostOnce | MsgWorker.cpp:271-279 | No unit of any batch is handed out twice |
| LockVerdicts.ReleaseIsFinal | MsgWorker.cpp:330-342 | Release never reverts and nothing touches an erased batch |
| LockVerdicts.NoLostWakeup | MsgWorker.cpp:330-337 | Without spurious wake-ups, unlockAll and empty batches, a released batch never has a blocked broker thread |
| LockVerdicts.ReleaseFindsWaiter | MsgWorker.cpp:305-328 | The check that releases a batch finds its broker thread already blocked and wakes it |
| LockVerdicts.WokenByRelease | MsgWorker.cpp:323-327 | A blocked broker thread is woken exactly when a check of its batch is published or the batch is forced, spurious wake-ups aside |
| LockVerdicts.ReleasedReturns | MsgWorker.cpp:330-342 | Once its batch is released, every step of a broker thread that is not about to block brings its return nearer |
| LockVerdicts.LostExactly | MsgWorker.cpp:323-336 | A wake-up is lost in one way only: the thread blocks after its test and the release came in between |
| LockVerdicts.ChecksAlways | MsgWorker.cpp:305-328 | In every run a check past its test of the queue has read only acknowledged units of a fetched batch, and a released batch is acknowledged completely and, unless forced, fetched completely |
| LockCallbacks.FinalVerdict | MsgWorker.cpp:305-342 | Without a clash the status of a released batch is what its units call for whenever no acknowledgement of it is between its setMsgStatus and the end of its check |
| LockCallbacks.VerdictIsLastWord | MsgWorker.cpp:100-115 | Without a clash, unlockAll or not, the callback returns CONSUME_SUCCESS exactly when every message was last told something other than RECONSUME_LATER; where acknowledgements of the batch do not overlap a message may be told both |
| LockCallbacks.ApartVerdict | MsgWorker.cpp:229-243 | In any run that begins no acknowledgement of a batch while another is at that batch, whatever is told and however often minds change, and without unlockAll on it, the verdict is CONSUME_SUCCESS exactly when every last word is another status than RECONSUME_LATER |
| LockCallbacks.CallbackVerdict | MsgWorker.cpp:100-115 | In every run the vector has one entry per message in order, RECONSUME_LATER exactly where that id was ever told so; it is sound if and only if the verdict is not RECONSUME_LATER or every message was told something; a batch not forced was delivered and acknowledged completely |
| LockCallbacks.ReleasedInRuns | MsgWorker.cpp:305-328 | In every run a batch not forced is released if and only if some check of it was published, and every check published had every message fetched and every id told something before it |
| LockCallbacks.ReadyCheckEnds | MsgWorker.cpp:305-328 | An acknowledgement at a batch whose messages are all fetched and told something stays at it until its check is published and releases the batch |
| LockCallbacks.UnlockAllReleases | MsgWorker.cpp:175-190 | When unlockAll is about to let go, every registered batch is what forcing makes of the batch it was when unlockAll took the lock: statuses, verdict and release |
| LockScans.EveryBatchTold | MsgWorker.cpp:229-243 | An acknowledgement about to let go of the lock has told every batch that was registered when it took it, beyond all that batch was told before, and has begun its check right after; a batch with every message fetched and told by then is released |
| LockScans.EmptyHanded | MsgWorker.cpp:208-222 | A fetch that leaves without a message has looked into the queue of every batch that was registered when it took the lock, and found it empty |
| LockScans.OneMessage | MsgWorker.cpp:208-227 | While it holds lockersMtx a fetch takes one message if it leaves with one and none otherwise, and an acknowledgement takes none |
| LockStale.OverlappingChecksMislead | MsgWorker.cpp:229-243 | For any message that can be told both sides by acknowledgements that overlap: a run of two overlapping checks whose stale verdict the callback returns |
| LockStale.LateWordMisleads | MsgWorker.cpp:305-308 | A run in which a forced batch is acknowledged with success and still returned as RECONSUME_LATER |
| LockStale.LateDoubtMisleads | MsgWorker.cpp:305-308 | A run in which a forced batch is told RECONSUME_LATER and still returned as CONSUME_SUCCESS |
| LockStale.MisleadsExactly | MsgWorker.cpp:229-328 | A wrong verdict can be returned if and only if acknowledgements of a batch can overlap and tell some message both sides, or some message can be told after unlockAll the other side of what it says then |
| LockCounterexamples.ForcedLosesWakeup | MsgWorker.cpp:175-190 | A run in which unlockAll loses a wake-up, for any batch |
| LockCounterexamples.EmptyLosesWakeup | MsgWorker.cpp:305-328 | A run in which an empty batch loses its wake-up |
| LockCounterexamples.SpuriousLosesWakeup | MsgWorker.cpp:336-336 | A run in which a spurious wake-up leads to a lost one |
| LockCounterexamples.LosesExactly | MsgWorker.cpp:305-337 | Wake-ups can be lost if and only if spurious wake-ups, unlockAll or empty batches occur |
| MatcherCalls.OrderlyAlways | MsgWorker.cpp:7-53 | In every run pool units, calls and index agree: a pending call has its INIT unit in the pool, the index points at units that were given the id, no unit is pooled twice |
| MatcherCalls.ExactlyOneAnswer | ConsumeCallData.cpp:20-33 | Each Consume call is finished at most once, by a message or by a timeout, and the matcher only uses a call that is alive and unanswered |
| MatcherCalls.NoMessageTwice | MsgWorker.cpp:208-227 | No message is the answer to two Consume calls |
| MatcherCalls.FailedReplyReconsumes | ConsumeCallData.cpp:35-47 | A reply that cannot be sent acknowledges its message as RECONSUME_LATER in its registered batch, and the index forgets it |
| MatcherWords.SentReplyIsQuiet | ConsumeCallData.cpp:30-33 | When the tag of a reply that was sent comes back, its call is deleted and batches, units, pool and index stay as they were |
| MatcherWords.CancelledAcceptIsQuiet | ConsumeCallData.cpp:35-47 | So with a call whose accept tag comes back not ok: it has no message, and only the call goes |
| MatcherWords.ErasedIsLeftAlone | MsgWorker.cpp:339-342 | A batch stays registered until its callback erases it, and from then on nothing touches it |
| MatcherWords.OnlyWordsTell | MsgWorker.cpp:24-43 | Over any step a unit changes its status or is acknowledged only by an acknowledgement, a guard past its deadline or a reply with a message that failed, of its id, at its registered consumer, and then takes exactly that status |
| MatcherWords.OnlyWordsRelease | MsgWorker.cpp:229-243 | Whatever is said at a consumer, each of its registered batches is checked, with that id or without, and is released with the verdict its units call for exactly if all its messages were fetched and acknowledged by then; no other step releases a batch |
| MatcherWords.KnownExactly | MsgWorker.cpp:230-242 | An acknowledgement is known, and goes on to mark a unit, exactly when a registered batch of its consumer has the id |
| MatcherWords.IndexFollows | MsgWorker.cpp:15-15 | idUnitMap gives for an id the unit it was last handed to, until a reply with it fails or an acknowledgement of it ends |
| MatcherWords.EveryUnitWasAsked | ConsumeCallData.cpp:8-18 | Every unit is that of a call whose request came at some step of the run |
| MatcherWords.FetchTimesOutExactly | MsgWorker.cpp:26-33 | A waiting call the matcher comes to is answered with the next message of a batch of its consumer whenever one has a message left, otherwise without a message exactly when ten seconds have passed since its request, otherwise it goes to the end of the pool |
| MatcherWords.GuardTimesOutExactly | MsgWorker.cpp:34-39 | A guard the matcher comes to tells its message RECONSUME_LATER and is dropped exactly when ten seconds have passed since the request of its call, whenever the message was given; else it goes to the end of the pool |
| MatcherGuards.KeptAlways | ConsumeAckCallData.cpp:7-18 | In every run a policy allows, no sure guard is missing and no batch is without rescue, across every step of matcher, broker and acknowledgement |
| MatcherGuards.EveryMessageGuarded | MsgWorker.cpp:9-48 | If ids come back to the same consumer only, and not at all where the matcher uses the gap, every delivered, unacknowledged message has a CLIENT_RECEIVE unit of its consumer and id in the pool, which no mark still to come can take |
| MatcherGuards.ReleasedWithoutGuards | MsgWorker.cpp:34-38 | A completely fetched batch without guards left is released |
| MatcherGuards.DrainReleases | MsgWorker.cpp:24-48 | After any run the policy allows, when the matcher has served the pool until it is empty every completely fetched batch is released |
| MatcherRuns.SharedIdLosesGuard | ConsumeAckCallData.cpp:14-18 | For any two consumers and any id: a run in which the acknowledgement at one drops the guard at the other |
| MatcherRuns.RepeatedAckLosesGuard | ConsumeAckCallData.cpp:14-18 | A run in which the mark of a repeated acknowledgement falls on the guard of the same id in a later batch |
| MatcherRuns.EarlyAckStrands | ConsumeAckCallData.cpp:14-18 | A run in which a message handed out during its own acknowledgement leaves its batch unreleased without a guard |
| MatcherRuns.ForgetsExactly | MsgWorker.h:242-243 | Messages can be forgotten if and only if some id can arrive in two batches, and these are at different consumers or the matcher can run between tell and mark |
| MatcherRuns.StrandsExactly | ConsumeAckCallData.cpp:14-18 | Batches can be stranded if and only if messages can be forgotten, or empty batches arrive, or acknowledgements can come early and the matcher can run between tell and mark |
| MatcherRuns.UnknownAckOverwrites | ConsumeAckCallData.cpp:37-41 | A run in which deleting the handler of an unknown acknowledgement leads a timeout to overwrite an acknowledged status |
| MatcherRuns.GapOverwrites | ConsumeAckCallData.cpp:14-18 | For any id and consumer: the run in which the matcher serves the guard past its deadline between setMsgAck and the mark, and writes RECONSUME_LATER over the acknowledged status of a released batch |
| MatcherDrain.DropsExactly | MsgWorker.cpp:24-48 | An iteration moves the head of the pool to the tail, except exactly when the unit is acknowledged, past its acknowledgement deadline, or past its fetch deadline with nothing to fetch |
| MatcherDrain.RoundRobin | MsgWorker.cpp:23-48 | The unit at position k is at the head after exactly k iterations, whatever else happens |
| MatcherDrain.UnitAgesAlong | MsgWorker.h:107-128 | Delivery does not move the deadline, and no unit goes back to waiting for a message |
| MatcherDrain.SecondServiceIsLast | MsgWorker.cpp:24-43 | A unit served past its deadline is gone after its next service |
| MatcherDrain.AckedIsDropped | ConsumeAckCallData.cpp:14-18 | The unit that idUnitMap gives when a mark is made, before its service, is dropped at its next service, without touching any batch |
| MatcherDrain.OverwritesExactly | ConsumeAckCallData.cpp:14-18 | From any state in which a guard is out and through any run, serving it past its deadline leaves every batch as it is if some acknowledgement on the way made its mark on it; if none did, every unit of its id at its consumer becomes RECONSUME_LATER, whatever it was told |
| MatcherDrain.WeightDrops | MsgWorker.cpp:24-48 | Past all deadlines each iteration uses up weight, two for a waiting unit and one for any other |
| MatcherDrain.DrainEnds | MsgWorker.cpp:24-48 | So no run of iterations is longer than the weight it starts with |
| MsgWorkers.MsgWorker.FindBatch | MsgWorker.cpp:213-220 | The scan finds a registered batch with a message left exactly when there is one |
| MsgWorkers.MsgWorker.SetMsgAck | MsgWorker.cpp:229-243 | The loop acknowledges in every registered batch of the consumer and reports whether one knew the id |
| MsgWorkers.MsgWorker.Answer | MsgWorker.cpp:9-20 | getMsg and the closure of loopMatch deliver the head of the chosen batch |
| MsgWorkers.MsgWorker.Serve | MsgWorker.cpp:25-43 | The three-way branch of the loop body is one step of the matcher, and says whether the unit is kept |
| MsgWorkers.MsgWorker.Iterate | MsgWorker.cpp:24-48 | tmp is empty when a turn begins and, on every path, when it ends; the turn is one step of the matcher |
| MsgWorkers.MsgWorker.LoopMatch | MsgWorker.cpp:22-48 | With nothing pushed and the clock past all deadlines the inner loop ends with an empty pool, by steps of the matcher alone, and after a run some policy allows every completely fetched batch is released |
| MsgWorkers.MsgWorker.ConsumeProcess | ConsumeCallData.cpp:8-18 | A new call listens and this one waits in the pool |
| MsgWorkers.MsgWorker.AckTells | ConsumeAckCallData.cpp:14-14 | The first half of an acknowledgement tells every registered batch of the consumer, and says whether one knew the id |
| MsgWorkers.MsgWorker.AckMarks | ConsumeAckCallData.cpp:16-18 | The second half marks the unit the index gives by then |
| MsgWorkers.MsgWorker.AckProcess | ConsumeAckCallData.cpp:7-35 | With nothing in between the two halves are run one after the other; the reply says whether the id was known |
| MsgWorkers.MsgWorker.Cancel | ConsumeCallData.cpp:35-47 | A failed reply acknowledges its message as RECONSUME_LATER, drops the index entry and deletes the call |
| MsgWorkers.MsgWorker.Del | ConsumeCallData.cpp:30-33 | The reply was sent: only the call object goes |
| CodecTheorems.SerializedMerges | Proxy.pb.cc:397-557 | Parsing what a message was serialised to, before any other bytes, merges it into the message being built and goes on with those bytes, or fails exactly when a string is not UTF-8 |
| CodecTheorems.RoundTrip | Proxy.pb.cc:1623-1758 | A message survives the wire if and only if all its strings are UTF-8, and is refused otherwise |
| CodecTheorems.ConcatenationMerges | Proxy.pb.cc:690-716 | Two serialised messages end to end parse as the merge of the second into the first |
| CodecTheorems.ParseAppend | Proxy.pb.cc:2073-2160 | Any bytes that parse to their end leave the parser where it can go on with the next ones |
| CodecTheorems.ParsedIsStorable | Proxy.pb.cc:2508-2580 | Whatever bytes come in, a parsed message holds only values that can be written again |
| CodecTheorems.Reserialized | Proxy.pb.cc:881-990 | Writing a parsed message and parsing that gives the message again |
| CodecTheorems.LastOneWins | Proxy.pb.cc:1256-1315 | A field takes its last assignment whatever it held before, unassigned fields stay, unknown fields are appended |
| CodecTheorems.ReadingIsMerging | Proxy.pb.cc:1873-1895 | Reading bytes over a message is merging the message they parse to if and only if no field is assigned its default over something else |
| CodecTheorems.EmptyFieldIsNotMerging | Proxy.pb.cc:1433-1450 | An explicitly empty topic wipes a topic when read and leaves it when merged |
| CodecTheorems.RequestTables | Proxy.pb.cc:397-498 | The field tables of the three requests have one-byte tags, all different, and these are the tags the generated parsers look for |
| CodecTheorems.ReplyTables | Proxy.pb.cc:881-952 | So with the three replies |
| CodecTheorems.WrittenInOrder | Proxy.pb.cc:501-557 | What is written are the fields that do not hold their default, each once, in ascending order, and then the unknown ones |
| CodecTheorems.ParsingStops | Proxy.pb.cc:403-497 | Parsing ends well at the end of the input, not so well at a zero or unreadable tag, and is refused at an end-group tag, an undefined wire type or field number zero |
| Utf8.ValidExactly | Proxy.pb.cc:412-415 | A string is accepted if and only if it is the encoding, one to four bytes a code point, of some sequence of Unicode scalar values |
| Utf8.EncodingIsUnique | Proxy.pb.cc:412-415 | An encoding determines its text |
| Wire.VarintInverse | Proxy.pb.cc:473-483 | Reading a varint gives back every 64-bit value and stops at its end |
| Wire.VarintMeaning | Proxy.pb.cc:547-550 | The bytes of a varint are the base-128 digits of its value, least significant first, no more than needed, the high bit on all but the last |
| Wire.ReadExactly | Proxy.pb.cc:473-475 | A varint is read exactly when it ends within ten bytes, and its value is that of its digits, modulo 2^64 |
| Wire.BlockReadExactly | Proxy.pb.cc:410-411 | A string is read exactly when its length, as an int32, is not negative and no more than what is left |
| Wire.NegativeTakesTen | Proxy.pb.cc:663-667 | A negative int32 takes ten bytes |
| Wire.VarintSizeExact | Proxy.pb.cc:622-673 | The closed size formula is the number of bytes of the varint |
| CodecObjects.ByteSizeLong | Proxy.pb.cc:1034-1068 | Unknown fields, then strings, then integers: the total is the number of bytes written |
| CodecObjects.InternalSerializeWithCachedSizesToArray | Proxy.pb.cc:559-620 | The array writer puts the serialised bytes at the target, ends behind them, and touches nothing else |
| CodecObjects.SerializeWithCachedSizes | Proxy.pb.cc:501-557 | The stream writer appends the same bytes |
| CodecObjects.MessageObject.MergePartialFromCodedStream | Proxy.pb.cc:397-498 | The parser's loop and switch do what the parse of the remaining bytes says |
| CodecObjects.MessageObject.MergeField | Proxy.pb.cc:408-485 | A known field is read and assigned, and refused when short or not UTF-8 |
| CodecObjects.MessageObject.KeepField | Proxy.pb.cc:487-496 | An unknown field is kept under its number, or refused |
| CodecObjects.MessageObject.MergeFrom | Proxy.pb.cc:690-716 | Unknown fields are appended and fields not at their default overwrite |
| Handlers.AlwaysSane | CallData.h:35-68 | In every run the status, the counters and the reply of each handler fit what it is waiting for |
| Handlers.AnsweredOnce | ProduceCallData.h:39-83 | A request is answered at most once and sent at most six times, and fails for retries exactly after six failures |
| Handlers.RetriesCounted | ProduceCallData.h:61-72 | The retry counter counts failed callbacks; the sixth is the last and answers |
| Handlers.RequestHandled | ProduceCallData.h:39-83 | In every run a request makes a new handler listen; a Produce request that is not complete is refused, one whose send throws is answered with an error, any other waits for its callback; a Consume request waits for the matcher and an acknowledgement is answered |
| Handlers.FailureHandled | ProduceCallData.h:61-82 | A failed send is repeated, with a new handler, after up to five failures; a send that throws then, or the sixth failure, answers the request |
| Handlers.SuccessHandled | ProduceCallData.h:52-59 | A send that succeeds answers its request with success, the matcher answers a pooled one, once, and no other handler changes |
| Handlers.TagDeletes | CallData.h:60-68 | The tag of an answer, or one that is not ok, deletes the handler and answers nothing |
| Handlers.DispatchIsRight | CallData.h:60-68 | The status tells request tags from answer tags, and a deleted handler gets no event |
| Handlers.AcceptSlots | ServerImpl.h:66-102 | One Consume and one ConsumeAck handler listen between events until the service refuses; listening Produce handlers are one more than all resends |
| Handlers.ProduceCallData.constructor | CallData.h:42-45 | The base constructor's call does nothing, the derived one registers the handler |
| Handlers.ProduceCallData.Process | ProduceCallData.h:39-83 | A new handler first; then the parameter check, the send, or the failure of one that throws |
| Handlers.ProduceCallData.FailureFunc | ProduceCallData.h:61-72 | A failed send repeats process up to five times, then answers with an error |
| Handlers.ProduceCallData.SuccessFunc | ProduceCallData.h:52-59 | A successful send answers |
| Handlers.ProduceCallData.Proceed | CallData.h:60-68 | The status selects create, process or delete |
| Handlers.ProduceCallData.Cancel | ProduceCallData.h:21-24 | A tag that is not ok deletes the handler |
| KeepAlive.NeverReaped | MsgWorker.h:94-96 | With services at most d seconds apart and polls at most g seconds after a reply, d + g at most 10, the reaper never sees the consumer inactive |
| KeepAlive.ReapedExactly | MsgWorker.h:94-96 | The reaper takes a consumer exactly when everything that made it, answered its calls or acknowledged its messages is twenty seconds past |
| KeepAlive.KnownSince | MsgWorker.cpp:81-122 | A consumer whose call was served, in vain or not, or that was acknowledged at, is there until the reaper comes |
| KeepAlive.SlowRun | MsgWorker.cpp:130-149 | With d + g above 10 there is a run in which it does |
| KeepAlive.KeptAliveExactly | MsgWorker.h:234-240 | The bound is exact |
| ProxyLoggers.InOrderConservation | ProxyLogger.cpp:85-109 | Flushed batches end to end, then the pending entries, are the popped entries in order |
| ProxyLoggers.BatchesSettled | ProxyLogger.cpp:69-83 | Batch sizes are bounded, a batch goes out short only more than one second after the flush before it, a bulk is tried exactly while fewer than ten have failed, a batch is in the index exactly if its bulk was tried and accepted, and otherwise in the file exactly if that is open |
| ProxyLoggers.BreakerLatches | ProxyLogger.cpp:71-73 | Once a batch was not tried, no later one is |
| ProxyLoggers.LostOnlyWithoutFile | ProxyLogger.cpp:72-77 | Entries are lost only when the log file is not open |
| ProxyLoggers.OnlyFullBatches | ProxyLogger.cpp:70-70 | While the clock stands still only full batches go out |
| ProxyLoggers.NothingWaits | ProxyLogger.cpp:70-82 | After a check fewer than max entries wait, and the last flush was at most one second ago |
| ProxyLoggers.ProxyLogger.CheckAndSendLog | ProxyLogger.cpp:69-83 | The closure keeps buffer, counters, index and file in step with the batches flushed |
| ProxyLoggers.ProxyLogger.ConsumeRound | ProxyLogger.cpp:85-109 | One round pops and checks entry by entry and closes with one more check |

## Left out

- The handshake between shutdownConsumer and clearMsgForConsumer through clearConsumerKey, and erasing a consumer from the map: only the effect of unlockAll is modelled, and the reaper's test of activity.
- getConsumer and getProducer returning null when the RocketMQ client does not start, and the client calls themselves: a batch arrives, a send succeeds, fails or throws, as the environment pleases.
- Interleaving inside one iteration of the matcher: in `Matcher` a push does not fall between the pop of a unit and its return to the pool, and an acknowledgement does not fall between taking a message from its queue and recording its guard. Nor does anything fall between telling the batches of a reply that failed and erasing its index entry, which takes no guard away.
- Interleaving inside setMsgStatus: the units of one id are told together.
- Pointers: a MsgUnit is its position in the batch and a ConsumeMsgUnit its position in the list of all such units; comparing and freeing them is not modelled.
- Data races at the level of the memory model, such as triggerCheck reading the queue without the mutex: field and container operations are atomic.
- The concatenation topic + group is kept as the key of a consumer, as in the code; two pairs with the same concatenation are one consumer here too.
- The gRPC completion queue, responders and contexts: only tags that return ok or not ok.
- CodecObjects.MessageObject.KeepField: stops the parse with an outcome of its own at a group, so unknown fields here are varints, fixed-width and length-delimited ones.
- Limits of the protobuf library on total message size, arenas, reflection, descriptors, accessors and the alternative parser under the other build flag; the wire primitives are not part of the repository and follow the Protocol Buffers encoding specification.
- CodecObjects.MessageObject.MergePartialFromCodedStream: leaves open what a refused message holds, because the bytes of a string that was cut short depend on the library.
- Handlers.AnsweredOnce: says that an unanswered request still waits for a callback or the matcher; that the broker client calls back at all is its own affair.
- KeepAlive.KeptAliveExactly: one client and whole seconds; other clients of the same consumer only add activity.
- pushMsgBack, waitForLock and msgPool, which nothing uses; the queue and map wrappers, which serve as a sequence and a map with atomic operations.
- BatchModel.ForcedRelease: says what one application of force does; over runs `LockCallbacks.UnlockAllReleases` and `LockCallbacks.VerdictIsLastWord` say more.
- JSON formatting, curl, time formatting and files in the logger; configuration, address lookup, clients and build files.
