# CatMQ, modelled and verified in Dafny

CatMQ is a message broker. Clients enqueue messages into named queues; each queue has a delivery thread that
expires, picks and delivers messages to subscribers, folds their replies into a verdict per message, and sweeps
finished messages out or into a companion dead-letter queue. Persistent queues keep their messages in a key-value
database and hold only a prefix of them in memory. This project models that core and proves properties of it.

`dafny verify dfyconfig.toml` checks everything.

| file | what it is |
|---|---|
| Messages.dfy | identifiers, records, in-memory messages, replies, configurations, counters |
| DeliveryPass.dfy | one delivery pass: replies, sets, attempt limit, verdict; and its laws |
| BalancedDelivery.dfy | the order in which subscribers are asked, and fairness |
| KeyOrder.dfy | serial numbers as database keys |
| QueueState.dfy | one queue as a value and what each critical section does to it |
| StoreInvariant.dfy | buffer, database and depth agree; kept by every critical section |
| QueueEffects.dfy | what hydration, expiry and sweep change |
| QueueRun.dfy | whole runs: every critical section and every wait for a subscriber is an action, interleaved freely |
| RunInvariant.dfy, RunHistory.dfy, RunAccounting.dfy | the invariants of a run, each kept by every action |
| RunTheorems.dfy, RunPicking.dfy, RunAnswers.dfy, RunOrder.dfy, RunOvertaking.dfy, RunPasses.dfy, RunTermination.dfy, Recovery.dfy | what holds of every run, and of every restart |
| RetryLoop.dfy | the loop in which every operation waits for its queue |
| DeadLetterMove.dfy | copy first, remove second, between two queues |
| DeadLetterRun.dfy | the same with the dead-letter queue running meanwhile |
| QueueRegistry.dfy | the dictionary of queues: create, delete, save, load |
| QueueServer.dfy | the queue and its messages as objects; loops and branches proved against QueueState |
| ClientBatching.dfy | the client's buffers, flushed in batches |

A run (QueueRun) starts from any saved database. Asynchronous deliveries, several enqueues inside the shared lock,
purges, subscriptions, stops, crashes and restarts may fall between any two steps of the delivery thread; in
particular a purge may fall between picking and marking a message, during a delivery, and between the two phases of a
sweep. Replies, the clock, the order of subscribers, new ids and success of try-locks are parameters.

The methods of the objects in QueueServer, QueueRegistry and ClientBatching are sections of the source in its own
form; each is proved to do to the abstract value what a function of QueueState, DeadLetterMove or QueueRegistry does, and
the laws are about those functions.

## Where the code does not do what its comments say

The model follows the code.

- The comment on `MaxDeliveryAttempts` says the limit includes deferred deliveries; a deferral returns before the
  limit is looked at (`LimitBreaksExactly`).
- The comment at the closing verdict says that a message some subscriber failed to get is retained in the dead-letter
  queue; only reaching the limit counts. A subscriber that failed below the limit and is gone before the closing
  snapshot leaves no copy (`RetentionMissesTheGone`), and if the limit is reached in a pass in which all deliveries
  failed, the next pass drops the message if anybody consumed it (`RetentionFails`); `RetentionExact` says exactly when
  there is a copy.
- The comment on `AsynchronousDelivery` says that messages are still delivered in order per subscriber; a queue that
  allows two outstanding deliveries has runs in which they are not (`OrderPerSubscriberExact`).
- A failed creation is to leave nothing behind; a dead-letter queue made and saved on the way stays if the last saving
  fails (`FailedCreateExact`), and a persistent queue is even on the saved list (`FailedCreateSaved`).
- A deletion reports an error if the list cannot be saved; the queue is gone then, but a persistent one comes back at
  the next start (`DeletedExact`).
- An ephemeral dead-letter queue is recreated at start and put on the list of queues to start, but it is never
  initialized and only initialized queues are started (`RestartBringsBack`).
- A server that is stopping, or a missing dead-letter queue, makes a sweep remove a message that was to be
  dead-lettered without a copy (`LostExactly`).
- A client that connects again throws away what is buffered, although it was reported to the server as consumed
  (`ResetExact`, `BatchingConserves`).
- A client's buffer whose subscription was cancelled is not flushed any more, not even by a forced flush
  (`FlushLeaves`).

## Model

| member | source | states |
|---|---|---|
| DeliveryPass.TakeMirrors | NTDLS.CatMQ.Server/Server/SingleMessageQueueServer.cs:357-464 | each reply branch leaves the per-message sets and counters as an independent account of all answered offers says: who is satisfied, who consumed, who was found at the limit; and the loop goes on after exactly the replies that neither settle nor defer |
| DeliveryPass.SendMirrors | NTDLS.CatMQ.Server/Server/SingleMessageQueueServer.cs:345-354 | the attempt is counted before the query goes out |
| DeliveryPass.RecordAfter | NTDLS.CatMQ.Server/Server/SingleMessageQueueServer.cs:398-407 | the record after each answer: a deferral counts one more, keeps its duration and sets the time of the answer plus the duration, or no time without a duration; every other answer leaves the record as it was |
| DeliveryPass.CompletedSetsAgree | NTDLS.CatMQ.Server/Server/SingleMessageQueueServer.cs:365-464 | satisfied and limit-reached never overlap, consumers are satisfied, and whoever is at the limit had at least that many attempts |
| DeliveryPass.AttemptBound | NTDLS.CatMQ.Server/Server/SingleMessageQueueServer.cs:455-464 | attempts of one message to one subscriber that are not answered Defer never exceed a positive limit |
| DeliveryPass.DeferralsEscapeTheLimit | NTDLS.CatMQ.Shared/CMqQueueConfiguration.cs:68-71 | the comment that the limit includes deferred deliveries is false: any number of deferred attempts is possible under any limit |
| DeliveryPass.LimitBreaksExactly | NTDLS.CatMQ.Server/Server/SingleMessageQueueServer.cs:398-464 | a subscriber that may still be asked has used up its attempts if and only if the attempt that reached the limit was answered Defer |
| DeliveryPass.OneConsumer | NTDLS.CatMQ.Server/Server/SingleMessageQueueServer.cs:365-378 | under FirstConsumedSubscriber at most one subscriber consumes, and no offer follows |
| DeliveryPass.LoopEndsFor | NTDLS.CatMQ.Server/Server/SingleMessageQueueServer.cs:338-464 | the loop runs through if and only if every turn continues, and then the failure set is exactly the failed subscribers; otherwise some turn ended it with the verdict that turn stands for |
| DeliveryPass.VerdictSound | NTDLS.CatMQ.Server/Server/SingleMessageQueueServer.cs:318-504 | for every verdict the complete list of reasons: an explicit reply, nobody left at the start, everybody complete in the closing snapshot, all deliveries failed, or a stop |
| DeliveryPass.RetentionExact | NTDLS.CatMQ.Server/Server/SingleMessageQueueServer.cs:472-497 | against the promise that a message with any failed delivery is retained: with a dead-letter queue, a message finished by a pass that no reply or stop cuts short is dead-lettered if and only if that pass had somebody to ask and somebody has reached the limit, or it had nobody to ask and nobody consumed the message |
| DeliveryPass.RetentionPerSubscriber | NTDLS.CatMQ.Server/Server/SingleMessageQueueServer.cs:455-497 | per subscriber asked in that pass and not satisfied: if its reply took it to the limit there is a copy; if nobody else is at the limit there is one only then; and if it did not, the message is finished only because the subscriber is missing from the closing snapshot |
| DeliveryPass.UnservedHasLeft | NTDLS.CatMQ.Server/Server/SingleMessageQueueServer.cs:472-497 | whoever was neither satisfied nor at the limit when a pass that asked somebody finishes the message is not in the closing snapshot |
| DeliveryPass.RetentionMissesTheGone | NTDLS.CatMQ.Server/Server/SingleMessageQueueServer.cs:472-497 | concrete run against the comment at lines 488-490, below any limit: one of two consumes, the other fails and has left before the closing snapshot, and the message is dropped without a copy; had it stayed, the message would be Ready again |
| DeliveryPass.RetentionFails | NTDLS.CatMQ.Server/Server/SingleMessageQueueServer.cs:322-334 | concrete run against the comment at lines 488-490: one of two consumes, the other fails to its limit in an all-failed pass, and the message is dropped without a dead-letter copy |
| DeliveryPass.ReadyPassCostsBudget | NTDLS.CatMQ.Server/Server/SingleMessageQueueServer.cs:318-504 | without deferrals a pass that ends Ready strictly reduces the attempts left, summed over the incomplete subscribers |
| DeliveryPass.DeliveryTerminates | NTDLS.CatMQ.Server/Server/SingleMessageQueueServer.cs:318-504 | with limit k > 0, fixed subscribers and no deferral, at most k passes end Ready and a further one drops or dead-letters the message |
| DeliveryPass.LoopSettles | NTDLS.CatMQ.Server/Server/SingleMessageQueueServer.cs:338-464 | the result of a loop over ordinary replies is a function of the set of subscribers, not of their order |
| DeliveryPass.OrderIndependence | NTDLS.CatMQ.Server/Server/SubscriberDispositions.cs:39-46 | under AllSubscribersSatisfied the verdict, the per-message sets and the attempt counts are the same for every order of the remaining subscribers |
| BalancedDelivery.DispositionsList | NTDLS.CatMQ.Server/Server/SubscriberDispositions.cs:24-46 | the snapshot lists each subscriber not yet complete exactly once, whatever the scheme; the balanced one by ascending attempts |
| BalancedDelivery.LoopAttempts | NTDLS.CatMQ.Server/Server/SingleMessageQueueServer.cs:338-378 | the loop attempts a prefix of its list once each and nobody else |
| BalancedDelivery.PassKeepsLevel | NTDLS.CatMQ.Server/Server/SubscriberDispositions.cs:43-46 | wherever a balanced pass over all subscribers stops, no two attempt counters differ by more than one |
| BalancedDelivery.BalancedDeliveryIsFair | NTDLS.CatMQ.Server/Management/CMqSubscriberDescriptor.cs:18-24 | the same over any number of delivery passes from a level start, with the snapshots the server takes and the passes the server makes |
| BalancedDelivery.BalancedSharesAreEven | NTDLS.CatMQ.Server/Server/SubscriberDispositions.cs:43-46 | n messages each consumed by the first subscriber asked give every one of s subscribers the floor or the ceiling of n/s |
| KeyOrder.ToKey | NTDLS.CatMQ.Server/Server/Extensions.cs:84-92 | the key of a serial is its eight bytes, most significant first, on a machine of either byte order; the bytes are reversed in place |
| KeyOrder.KeysInSerialOrder | NTDLS.CatMQ.Server/Server/Extensions.cs:80-92 | byte order of keys is number order of serials, both ways, so iteration visits messages in enqueue order |
| KeyOrder.KeyRoundTrip | NTDLS.CatMQ.Server/Server/SingleMessageQueueServer.cs:543-548 | reversing a stored key and decoding it gives the serial back |
| KeyOrder.SeekSkipsPrefix | NTDLS.CatMQ.Server/Server/SingleMessageQueueServer.cs:531-550 | seeking to the key after the greatest buffered serial skips exactly the buffered prefix, unless the sum wraps to zero; then nothing is skipped, which the comparison in the loop makes up for |
| QueueState.FirstEligible | NTDLS.CatMQ.Server/Server/SingleMessageQueueServer.cs:162-163 | the first buffered message that is Ready and not deferred into the future, or none if there is none |
| QueueState.Disposed | NTDLS.CatMQ.Server/Server/SingleMessageQueueServer.cs:207-210 | exactly the buffered messages in Drop or DeadLetter |
| QueueState.NextKeysAreNext | NTDLS.CatMQ.Server/Server/SingleMessageQueueServer.cs:526-564 | one hydration reads stored keys behind the buffer only, in order, and leaves one out only if the chunk is full and it comes later |
| QueueEffects.HydrationLoads | NTDLS.CatMQ.Server/Server/SingleMessageQueueServer.cs:536-566 | the messages loaded are the records read, fresh and Ready, in key order; only records without an id are rewritten, with one |
| QueueEffects.ExpiryEffect | NTDLS.CatMQ.Server/Server/SingleMessageQueueServer.cs:112-144 | exactly the Ready messages older than the maximum age are flagged: DeadLetter if the dead-letter queue takes them at that age, else Drop |
| QueueEffects.ExpiryCount | NTDLS.CatMQ.Server/Server/SingleMessageQueueServer.cs:141-144 | every flagged message is counted as expired once |
| QueueEffects.ExpiryByAge | NTDLS.CatMQ.Server/Server/SingleMessageQueueServer.cs:112-144 | by the configured ages: a Ready message strictly older than the maximum age becomes DeadLetter if there is a dead-letter queue without a maximum age or with one the message does not exceed, else Drop; every other state stays |
| QueueEffects.PickExact | NTDLS.CatMQ.Server/Server/SingleMessageQueueServer.cs:149-177 | a message is picked if and only if outstanding deliveries are below the bound, somebody is subscribed, and some buffered message is Ready, not too old and past its deferral; it is the first such; hydration is asked for if and only if, in the same case for bound and subscribers, a persistent queue is deeper than its buffer and that is under 1000 or has nothing to deliver |
| QueueEffects.HydratedHaveIds | NTDLS.CatMQ.Server/Server/SingleMessageQueueServer.cs:552-560 | every message loaded has an id: the stored one, or if that has none a new one, which is stored with it |
| QueueEffects.SweepEffect | NTDLS.CatMQ.Server/Server/SingleMessageQueueServer.cs:212-247 | a sweep removes only listed messages with a Drop or DeadLetter verdict, and the depth falls by as many as leave the buffer |
| QueueEffects.SweepRemovesListed | NTDLS.CatMQ.Server/Server/SingleMessageQueueServer.cs:216-241 | every listed message that is still buffered and has a verdict is gone afterwards; messages not listed stay |
| StoreInvariant.AllocateKeeps | NTDLS.CatMQ.Server/Server/MessageQueueStatistics.cs:14-15 | drawing a serial under the shared lock keeps buffer, store and depth consistent and gives a serial above all |
| StoreInvariant.StoreKeeps | NTDLS.CatMQ.Server/CMqServer.cs:1307-1311 | storing a record whose serial was drawn never overwrites one, and keeps the consistency while other enqueues are under way |
| StoreInvariant.CountKeeps | NTDLS.CatMQ.Server/CMqServer.cs:1313-1315 | counting after storing restores the exact depth |
| StoreInvariant.EnqueueKeeps | NTDLS.CatMQ.Server/CMqServer.cs:1285-1357 | a whole enqueue, persistent or ephemeral, beside others under way, keeps the consistency |
| StoreInvariant.HydrateKeysKeeps | NTDLS.CatMQ.Server/Server/SingleMessageQueueServer.cs:526-566 | hydration keeps it: the keys read are the next ones after the buffer |
| StoreInvariant.AnswerKeeps | NTDLS.CatMQ.Server/Server/SingleMessageQueueServer.cs:398-427 | a deferral changes message and stored record together, and only of a message still buffered |
| StoreInvariant.SweepKeeps | NTDLS.CatMQ.Server/Server/SingleMessageQueueServer.cs:212-247 | a sweep keeps it; what was purged meanwhile is skipped |
| StoreInvariant.PurgeKeeps | NTDLS.CatMQ.Server/CMqServer.cs:1399-1412 | a purge keeps it |
| StoreInvariant.LoadKeeps | NTDLS.CatMQ.Server/Server/SingleMessageQueueServer.cs:603-629 | loading from the database establishes it: depth is the number of records, last serial the greatest key |
| StoreInvariant.LastKeyIsGreatest | NTDLS.CatMQ.Server/Server/SingleMessageQueueServer.cs:607-623 | the last key of the scan is the greatest serial stored, zero for an empty database |
| StoreInvariant.BufferRefinesStore | NTDLS.CatMQ.Server/Server/SingleMessageQueueServer.cs:509-569 | the buffer is, in ascending serial order, exactly the stored messages up to the last buffered one, each equal to its record |
| StoreInvariant.HydrationTestExact | NTDLS.CatMQ.Server/Server/SingleMessageQueueServer.cs:171-177 | the depth counter exceeds the buffer length if and only if some stored and counted message is not buffered |
| RunInvariant.StoreStep | NTDLS.CatMQ.Server/Server/SingleMessageQueueServer.cs:57-295 | every critical section, of whatever thread, keeps buffer, store and depth consistent |
| RunInvariant.CallStep | NTDLS.CatMQ.Server/Server/SingleMessageQueueServer.cs:186-200 | every critical section keeps: a message is out for delivery if and only if one call works on it, and the counter of outstanding deliveries is the number of calls |
| RunHistory.HistoryStep | NTDLS.CatMQ.Server/Server/SingleMessageQueueServer.cs:318-504 | interleaved with anything, message objects stay what their history of answers says, and calls only ask subscribers not yet complete |
| RunAccounting.ObjectStep | NTDLS.CatMQ.Server/Server/EnqueuedMessage.cs:11-95 | Drop, DeadLetter and Shutdown are never left, and a message keeps id, serial, time, type and body; only deferral fields change |
| RunAccounting.TallyStep | NTDLS.CatMQ.Server/Server/SingleMessageQueueServer.cs:112-144 | expired, explicitly dropped and explicitly dead-lettered messages are disjoint sets whose sizes are the counters |
| RunAccounting.AccountStep | NTDLS.CatMQ.Server/Server/MessageQueueStatistics.cs:24-40 | held at the start plus received equals depth plus swept plus purged, after every critical section |
| RunTheorems.RunInv | NTDLS.CatMQ.Server/Server/SingleMessageQueueServer.cs:57-295 | all of these together hold after every run |
| RunTheorems.DepthExactOnRuns | NTDLS.CatMQ.Server/Server/SingleMessageQueueServer.cs:171-177 | in every reachable state the depth is the number of messages held, less enqueues stored but not yet counted; it is never below the buffer length, and the hydration test is exact |
| RunTheorems.BufferRefinesStoreOnRuns | NTDLS.CatMQ.Server/Server/SingleMessageQueueServer.cs:509-569 | in every reachable state with the database open the buffer is the stored prefix, record by record |
| RunTheorems.PurgeIsFinal | NTDLS.CatMQ.Server/CMqServer.cs:1394-1413 | after a purge no message it removed is ever stored or buffered again in the run, whatever late answers (deferrals included) come in, and the depth counts only newcomers |
| RunTheorems.GoneForGood | NTDLS.CatMQ.Server/Server/SingleMessageQueueServer.cs:412-423 | a serial that has left buffer, store and enqueues under way never comes back |
| RunTheorems.LeavesOnlyBy | NTDLS.CatMQ.Server/Server/SingleMessageQueueServer.cs:212-247 | a stored message leaves the database only by a purge or by a sweep that found it with a Drop or DeadLetter verdict |
| RunTheorems.RecordsKeepIdentity | NTDLS.CatMQ.Server/Server/EnqueuedMessage.cs:13-59 | a stored record never changes except in its deferral fields and, if it had none, its id |
| RunTheorems.BoundedConcurrency | NTDLS.CatMQ.Server/Server/SingleMessageQueueServer.cs:149-200 | outstanding deliveries equal the unfinished calls and stay between 0 and max(0, MaxOutstandingDeliveries); two calls never work on the same serial; a synchronous queue has at most the one call it waits for |
| RunTheorems.AttemptsOnRuns | NTDLS.CatMQ.Server/Server/SingleMessageQueueServer.cs:345-464 | attempt bound, disjointness of the completed sets, and no offer to a completed subscriber, in every reachable state |
| RunTheorems.ExclusiveConsumption | NTDLS.CatMQ.Server/Server/SingleMessageQueueServer.cs:365-378 | under FirstConsumedSubscriber a message has at most one consumer in a run, and a consumed message is dropped, never dead-lettered |
| RunTheorems.BooksBalance | NTDLS.CatMQ.Server/Server/MessageQueueStatistics.cs:24-85 | received = held + swept + purged, and no message counted twice among expired, dropped and dead-lettered, in every reachable state |
| RunTheorems.TerminalForGood | NTDLS.CatMQ.Server/Server/SingleMessageQueueServer.cs:428-441 | a Drop or DeadLetter verdict never changes for the rest of the run |
| RunPicking.PickOnRuns | NTDLS.CatMQ.Server/Server/SingleMessageQueueServer.cs:107-184 | PickExact in every reachable state, with the buffer lock obtained or not |
| RunPicking.NoSubscribersNoPick | NTDLS.CatMQ.Server/Server/SingleMessageQueueServer.cs:157-163 | in a reachable state without subscribers a turn of the thread picks nothing and asks for no hydration |
| RunPicking.UnsubscribedKeepsReady | NTDLS.CatMQ.Server/Server/SingleMessageQueueServer.cs:159-160 | as long as nobody is subscribed, a Ready message of a queue without a maximum age stays Ready over any run: it is neither delivered to nobody nor dropped |
| RunPicking.HydrationFills | NTDLS.CatMQ.Server/Server/SingleMessageQueueServer.cs:509-569 | a hydration adds 5000 messages to the buffer, or afterwards nothing stored is missing from it |
| RunPicking.RecordRests | NTDLS.CatMQ.Server/Server/EnqueuedMessage.cs:11-95 | over every action but a restart the record of a message object stays as it is, unless a delivery of it is answered Defer |
| RunPicking.DeferralHolds | NTDLS.CatMQ.Server/Server/SingleMessageQueueServer.cs:398-407 | after a subscriber has answered Defer with a duration at a certain time, no turn of the thread picks the message before that time plus the duration, whatever happens, until it is deferred again or the process restarts |
| RunPicking.DeferralEnds | NTDLS.CatMQ.Server/Server/SingleMessageQueueServer.cs:162-163 | and once that time has come, or if the deferral named none, the message is picked if it is first in the buffer and Ready |
| RunPicking.DeferredTill | NTDLS.CatMQ.Server/Server/SingleMessageQueueServer.cs:404-423 | the answer leaves time, duration and count in the message, and, if it is still buffered and the database is open, in its stored record |
| RunAnswers.AnswersOnRuns | NTDLS.CatMQ.Server/Server/MessageQueueStatistics.cs:93-141 | in every reachable state the counters are those at the start plus the answers to all messages, each once: delivered for all but failures, failed for failures and unexpected dispositions, deferred for deferrals |
| RunOrder.PickIsOldest | NTDLS.CatMQ.Server/Server/SingleMessageQueueServer.cs:162-163 | the picked message is older than every other deliverable one: buffered, stored but not buffered, or still being enqueued |
| RunOrder.OrderStep | NTDLS.CatMQ.Server/Server/SingleMessageQueueServer.cs:186-200 | every critical section keeps the order bookkeeping of a queue with one delivery at a time and without deferrals |
| RunOrder.StrictOrder | NTDLS.CatMQ.Server/Server/SingleMessageQueueServer.cs:186-200 | on such a queue the serials of successive deliveries never decrease, and when a message is about to be taken up every older one, buffered or stored, is in memory with its verdict or was cut short by a stop, and none is still being enqueued |
| RunPasses.DeliveriesArePasses | NTDLS.CatMQ.Server/Server/SingleMessageQueueServer.cs:297-313 | however other activity interleaves with it, whatever action ends a delivery call leaves its message as one delivery pass does: that over the opening snapshot of the call with the answers it received, and, if everybody was asked, the running flag and the subscribers of that moment; the state it gets is the verdict of that pass |
| RunPasses.VerdictsOnRuns | NTDLS.CatMQ.Server/Server/SingleMessageQueueServer.cs:318-504 | verdict soundness in every reachable state: Drop, DeadLetter, Shutdown or Ready is given only for the replies received, the stop or the subscribers of that moment that call for it |
| RunPasses.UnaskedVerdict | NTDLS.CatMQ.Server/Server/SingleMessageQueueServer.cs:322-334 | a picked message makes no call if and only if nobody subscribed is owed it, and then it gets its state at once: Drop if anybody consumed it, DeadLetter otherwise |
| RunTermination.CallsAreBounded | NTDLS.CatMQ.Server/Server/SingleMessageQueueServer.cs:57-295 | with limit k > 0, while the server is up, the subscribers stay and the message is not deferred, a message is taken up at most k + 1 times in any run, and the call that makes it k + 1 settles it |
| RunOvertaking.InOrderPerSubscriber | NTDLS.CatMQ.Shared/CMqQueueConfiguration.cs:47-51 | with one delivery at a time and without deferrals nobody is ever asked about a message before an older one it is still owed |
| RunOvertaking.AsynchronousOvertakes | NTDLS.CatMQ.Server/Server/SingleMessageQueueServer.cs:186-200 | with two at a time there is a run, without deferrals and with the same order of subscribers for both messages, in which a subscriber is asked about the younger message first |
| RunOvertaking.OrderPerSubscriberExact | NTDLS.CatMQ.Shared/CMqQueueConfiguration.cs:47-51 | the documented order per subscriber holds of every such run of a queue if and only if the queue is synchronous or allows at most one outstanding delivery |
| Recovery.ChunksCompose | NTDLS.CatMQ.Server/Server/SingleMessageQueueServer.cs:509-569 | hydrating in two chunks loads the same messages in the same order as in one |
| Recovery.RestartRecovers | NTDLS.CatMQ.Server/Server/SingleMessageQueueServer.cs:603-629 | stopped or crashed in any reachable state, reloaded and hydrated in chunks of any size, the queue holds exactly the stored messages, in order, Ready, with id and deferral, and the depth is their number |
| Recovery.RestartSerials | NTDLS.CatMQ.Server/Server/SingleMessageQueueServer.cs:617-626 | the next serial after a restart is above every stored key |
| Recovery.NextSerialGrows | NTDLS.CatMQ.Server/Server/MessageQueueStatistics.cs:14-15 | the next serial is greater than the last if and only if the 64-bit counter does not wrap |
| RetryLoop.DecidedByFirst | NTDLS.CatMQ.Server/CMqServer.cs:900-966 | the loop in which every operation waits for its queue is decided by its first round that is not a failed try-lock, and by nothing else; it is undecided exactly as long as every round was one |
| RetryLoop.EnteredExactly | NTDLS.CatMQ.Server/CMqServer.cs:1269-1373 | the section is entered if and only if that round finds the server running, the deadline ahead, and the queue there and locked |
| DeadLetterMove.CopiedExactly | NTDLS.CatMQ.Server/CMqServer.cs:900-966 | a message is copied if and only if the first round of the loop that is not a failed try-lock finds the server running, the deadline ahead and the queue there, locked and initialized |
| DeadLetterMove.NotCopiedExactly | NTDLS.CatMQ.Server/CMqServer.cs:900-966 | how a move ends otherwise, for each end the deciding round: stopping, missing, past the deadline or not initialized (an exception), or none yet |
| DeadLetterMove.EnqueueAdds | NTDLS.CatMQ.Server/CMqServer.cs:1285-1357 | an enqueue adds exactly one item, under the next serial, above all the queue holds, stored only or buffered only |
| DeadLetterMove.EnqueueHolds | NTDLS.CatMQ.Server/CMqServer.cs:1300-1305 | that item has the type, body and id it was called with, the time of the call, no deferral so far, and, if a delay was asked for, the time of the call plus the delay |
| DeadLetterMove.DepositAdds | NTDLS.CatMQ.Server/CMqServer.cs:914-952 | the copy adds exactly one item to the dead-letter queue: same id, body, type, time and deferral count, under the next serial, above all it holds, and not deferred there; its consistency is kept |
| DeadLetterMove.DepositIsEnqueue | NTDLS.CatMQ.Server/CMqServer.cs:908-928 | to the dead-letter queue a deposit is an ordinary enqueue, so all results about runs hold while messages are moved into it |
| DeadLetterMove.SweepMoveSweeps | NTDLS.CatMQ.Server/Server/SingleMessageQueueServer.cs:212-247 | a sweep with moves is, on the source queue, the sweep of a prefix of the list, cut short only by a failed move |
| DeadLetterMove.FateByState | NTDLS.CatMQ.Server/Server/SingleMessageQueueServer.cs:218-243 | one message: copied if and only if it is buffered in state DeadLetter, a dead-letter queue is configured and the move ends with a copy; dropped if and only if it is buffered in state Drop; a message in any state but DeadLetter leaves the dead-letter queue alone whatever a move would do |
| DeadLetterMove.FatesByState | NTDLS.CatMQ.Server/Server/SingleMessageQueueServer.cs:216-243 | the same for every message of a sweep, by its state and whether it is still buffered when its turn comes |
| DeadLetterMove.MovedExactly | NTDLS.CatMQ.Server/Server/SingleMessageQueueServer.cs:222-236 | the message listed at a position is moved if and only if it is then still buffered in state DeadLetter, a dead-letter queue is configured and its own move ends with a copy |
| DeadLetterMove.OnlyDeadLettersMove | NTDLS.CatMQ.Server/Server/SingleMessageQueueServer.cs:240-243 | a sweep of messages none of which is in state DeadLetter leaves the dead-letter queue as it was |
| DeadLetterMove.CountsByState | NTDLS.CatMQ.Server/Server/SingleMessageQueueServer.cs:216-243 | the fates count the messages taken away, each once, by their state |
| DeadLetterMove.StepMoves | NTDLS.CatMQ.Server/Server/SingleMessageQueueServer.cs:224-236 | per message: between copy and removal it is in both queues, after the removal in the dead-letter queue only |
| DeadLetterMove.SweepConserves | NTDLS.CatMQ.Server/Server/SingleMessageQueueServer.cs:212-247 | what leaves the source equals the fates recorded, what arrives in the dead-letter queue equals the moves; both queues stay consistent |
| DeadLetterMove.EachMovedOnce | NTDLS.CatMQ.Server/CMqServer.cs:890-966 | a moved message is in the dead-letter queue with the same payload under a serial that queue did not have, and no longer in the source |
| DeadLetterMove.NothingLost | NTDLS.CatMQ.Server/Server/SingleMessageQueueServer.cs:224-243 | with the server running and the dead-letter queue there, the dead-letter queue grows by the number of messages taken away in state DeadLetter, and the two queues together lose exactly those taken away in state Drop |
| DeadLetterMove.LostExactly | NTDLS.CatMQ.Server/CMqServer.cs:900-956 | a message to be dead-lettered leaves the source, and the dead-letter queue holds what it held before, if and only if no dead-letter queue is configured, or the deciding round found the server stopping or the queue missing |
| DeadLetterMove.NeverMovedTwice | NTDLS.CatMQ.Shared/CMqDeadLetterQueueConfiguration.cs:61-76 | a dead-letter queue has none of its own, so its sweeps move nothing |
| DeadLetterRun.KeepsStep | NTDLS.CatMQ.Server/Server/SingleMessageQueueServer.cs:212-247 | whatever action a queue takes, a message it holds stays held, with id, time, type and body, unless the action is a purge or a sweep that found it with a verdict |
| DeadLetterRun.ArrivedStep | NTDLS.CatMQ.Server/Server/MessageQueueStatistics.cs:24-40 | held plus swept plus purged grows by exactly the messages stored or buffered anew, over every action |
| DeadLetterRun.SharesAreRun | NTDLS.CatMQ.Server/CMqServer.cs:908-952 | to the dead-letter queue a sweep that moves messages into it, step by step between its own actions, is one of its own runs |
| DeadLetterRun.EachMovedInOrder | NTDLS.CatMQ.Server/Server/SingleMessageQueueServer.cs:212-247 | with the dead-letter queue running meanwhile: the source is swept in list order, every message but those purged before has left it, and the copies get ascending serials above everything the dead-letter queue held |
| DeadLetterRun.EachCopyAccounted | NTDLS.CatMQ.Server/CMqServer.cs:890-966 | in every interleaving the copy of a moved message is in the dead-letter queue if and only if that queue has not itself purged it or swept it with a verdict, and then it is gone for good |
| DeadLetterRun.EachFateFits | NTDLS.CatMQ.Server/Server/SingleMessageQueueServer.cs:216-243 | in every interleaving a message is moved only if it was still buffered in state DeadLetter when its turn came and a dead-letter queue is configured, and dropped if and only if it was then buffered in state Drop |
| DeadLetterRun.DropCopiesNothing | NTDLS.CatMQ.Server/Server/SingleMessageQueueServer.cs:240-243 | a message at hand that is not to be dead-lettered is settled in one step, which leaves the dead-letter queue alone |
| DeadLetterRun.PairConserves | NTDLS.CatMQ.Server/Server/SingleMessageQueueServer.cs:212-247 | conservation in every interleaving: the source loses exactly the messages taken away in state Drop or DeadLetter; what the dead-letter queue holds, has swept and has purged grows by its own enqueues and one per move; so the two queues together lose exactly those in state Drop and those in state DeadLetter that were not moved; a copy and its original count twice only between the copy and the removal |
| DeadLetterRun.UndisturbedSweep | NTDLS.CatMQ.Server/Server/SingleMessageQueueServer.cs:212-247 | the sweep of DeadLetterMove is the one of these runs in which the dead-letter queue does nothing else |
| QueueRegistry.CreateSucceeds | NTDLS.CatMQ.Server/CMqServer.cs:1019-1074 | a successful creation leaves the queue as asked for, running and saved, and, running too, a dead-letter queue with every setting its configuration asks for unless one was there, and touches no other; an existing queue is left as it is |
| QueueRegistry.CreateExact | NTDLS.CatMQ.Server/CMqServer.cs:1001-1074 | when a creation succeeds: allowed by configuration and name, and the queue exists, or its database opens, its dead-letter queue exists or can be opened and saved, and the list can be saved |
| QueueRegistry.CreateRefuses | NTDLS.CatMQ.Server/CMqServer.cs:1003-1010 | dead-letter configurations and names ending in .dlq in any case of letters are refused without effect |
| QueueRegistry.KeyIgnoresCase | NTDLS.CatMQ.Server/CMqServer.cs:1029 | two names are the same queue if and only if they differ in nothing but the case of letters |
| QueueRegistry.FailedCreateExact | NTDLS.CatMQ.Server/CMqServer.cs:1054-1070 | the rollback comment is only half true: the failed queue itself is never left, but the dictionary is as before if and only if it is not the case that this creation could make and save the dead-letter queue (not there before, opens if persistent, its saving works) and then could not save the list for the queue |
| QueueRegistry.FailedCreateSaved | NTDLS.CatMQ.Server/CMqServer.cs:1047-1070 | a queue reported as failed is on the saved list, and so comes back at the next start, if and only if it is persistent and in that same case |
| QueueRegistry.DlqsStayPresent | NTDLS.CatMQ.Server/CMqServer.cs:1001-1147 | as long as no dead-letter queue is deleted by name, every queue that wants one has one, over any run of creations (failed ones included) and deletions |
| QueueRegistry.DeletingDlqExact | NTDLS.CatMQ.Server/CMqServer.cs:1079-1147 | a deletion breaks that if and only if it is of the dead-letter queue of another queue |
| QueueRegistry.DeletedExact | NTDLS.CatMQ.Server/CMqServer.cs:1099-1125 | a deletion takes exactly that queue out of the dictionary, and off the saved list if and only if the list can be saved |
| QueueRegistry.SavedMirrorsRuns | NTDLS.CatMQ.Server/CMqServer.cs:191-217 | as long as every save works, the saved list is exactly the persistent queues with their configurations, over any run of creations (failed ones included) and deletions |
| QueueRegistry.RestartBringsBack | NTDLS.CatMQ.Server/CMqServer.cs:713-780 | a restart brings back the saved queues and recreated ephemeral dead-letter queues, these with every setting the parent asks for; the former run if their database opens, the latter are never initialized and so never started |
| QueueRegistry.DlqAfterRestartExact | NTDLS.CatMQ.Server/CMqServer.cs:754-761 | after a restart a queue that wants a dead-letter queue has one if and only if that was saved or is configured ephemeral |
| QueueRegistry.SavedStaysWell | NTDLS.CatMQ.Server/CMqServer.cs:191-217 | what is saved is filed under its own name, and what is named like a dead-letter queue has none of its own |
| QueueRegistry.Broker.CreateQueueInternal | NTDLS.CatMQ.Server/CMqServer.cs:1019-1074 | publication, recursion for the dead-letter queue, saving and rollback amount to the creation CreateSucceeds and FailedCreateExact speak of, on dictionary and saved list |
| QueueRegistry.Broker.CreateQueue | NTDLS.CatMQ.Server/CMqServer.cs:1001-1014 | dead-letter configurations and names with the dead-letter suffix are refused |
| QueueRegistry.Broker.DeleteQueue | NTDLS.CatMQ.Server/CMqServer.cs:1079-1147 | the deciding round of the retry loop says what happens: entered, that queue only is removed and the list saved, an exception if that fails, though the queue is gone; too late, an exception; stopped or not there, nothing and no error |
| QueueRegistry.Broker.Start | NTDLS.CatMQ.Server/CMqServer.cs:728-770 | loading saved queues one by one, recreating ephemeral dead-letter queues on the way and skipping names already taken, is the load whose result RestartBringsBack describes |
| QueueServer.AcceptedExactly | NTDLS.CatMQ.Server/CMqServer.cs:1269-1373 | an operation is accepted if and only if the first round that is not a failed try-lock finds the server running, the deadline ahead, and the queue there, locked and initialized |
| QueueServer.RefusedExactly | NTDLS.CatMQ.Server/CMqServer.cs:1269-1373 | not running, out of time, no such queue, not initialized, still trying: for each exactly the rounds that mean it |
| QueueServer.TurnIsPass | NTDLS.CatMQ.Server/Server/SingleMessageQueueServer.cs:88-205 | a turn without its sweep: if and only if there is room, a subscriber and something deliverable, the first deliverable message goes through one pass over those it is still owed to, in the arranged order; every other message is as expiry leaves it |
| QueueServer.AskingIsOffering | NTDLS.CatMQ.Server/Server/SingleMessageQueueServer.cs:338-464 | the loop on the whole queue does to the message what the delivery pass says, and changes no other message |
| QueueServer.DeliveredIsPass | NTDLS.CatMQ.Server/Server/SingleMessageQueueServer.cs:297-313 | a synchronous delivery ends with the message as one delivery pass leaves it, its verdict as state, the outstanding counter where it was |
| QueueServer.ScanIsNext | NTDLS.CatMQ.Server/Server/SingleMessageQueueServer.cs:536-566 | scanning the database in key order and skipping buffered serials reads exactly the next chunk |
| QueueServer.NothingDisposedLeft | NTDLS.CatMQ.Server/Server/SingleMessageQueueServer.cs:207-247 | a sweep whose moves do not fail leaves no message with a verdict in the buffer |
| QueueServer.EnqueuedMessage.CloneForDeadLetter | NTDLS.CatMQ.Server/Server/EnqueuedMessage.cs:85-93 | a fresh Ready message with id, time, deferral count, type and body of the original and no deferral |
| QueueServer.MessageQueue.ScanDatabase | NTDLS.CatMQ.Server/Server/SingleMessageQueueServer.cs:607-623 | the scan finds the number of records and the greatest key |
| QueueServer.MessageQueue.constructor | NTDLS.CatMQ.Server/Server/SingleMessageQueueServer.cs:585-632 | a queue as loaded from its database, running, with nobody subscribed and nothing out; consistent if every record is stored under its serial |
| QueueServer.MessageQueue.FlagExpired | NTDLS.CatMQ.Server/Server/SingleMessageQueueServer.cs:112-144 | flags in place and counts exactly the messages ExpiryEffect describes; buffer and database are untouched |
| QueueServer.MessageQueue.ExpireAndSelect | NTDLS.CatMQ.Server/Server/SingleMessageQueueServer.cs:107-184 | an object is picked if and only if outstanding deliveries are below the bound, somebody is subscribed and some buffered object is Ready and past its deferral; it is the first such; hydration is asked for exactly when, with room and a subscriber, a persistent queue is deeper than its buffer and that is under 1000 or has nothing due; without subscribers neither |
| QueueServer.MessageQueue.FirstDeliverable | NTDLS.CatMQ.Server/Server/SingleMessageQueueServer.cs:162-163 | the first object of the buffer that is Ready and past its deferral, null if and only if there is none |
| QueueServer.MessageQueue.Enqueue | NTDLS.CatMQ.Server/CMqServer.cs:1251-1373 | blank type and empty body are refused; otherwise the outcome is that of the retry loop (AcceptedExactly), and exactly an accepted enqueue changes the queue: it holds one item more, under the next serial, with the type, body, id, time and delay of the call |
| QueueServer.MessageQueue.HydrateMessageBuffer | NTDLS.CatMQ.Server/Server/SingleMessageQueueServer.cs:509-577 | maximum scan, seek and loading loop amount to one hydration; not persistent, lock not obtained and not initialized change nothing |
| QueueServer.MessageQueue.ApplyReply | NTDLS.CatMQ.Server/Server/SingleMessageQueueServer.cs:365-464 | every reply branch and the limit check change the message object, and only it, as one answer of the delivery pass does; its record changes by a deferral only, to the time of the answer plus the duration |
| QueueServer.MessageQueue.TakeReply | NTDLS.CatMQ.Server/Server/SingleMessageQueueServer.cs:357-464 | the same with the counters of the queue and, if and only if the answer is a deferral, the message is still buffered and the database open, the write-back |
| QueueServer.MessageQueue.AskSubscribers | NTDLS.CatMQ.Server/Server/SingleMessageQueueServer.cs:336-465 | attempt counted first, a stop, a settling reply or a deferral ends it early, failures are collected; the queue is as the specified loop leaves it |
| QueueServer.MessageQueue.DistributeWithDisposition | NTDLS.CatMQ.Server/Server/SingleMessageQueueServer.cs:318-504 | every exit of the pass: nobody left, early verdict, stopped, all failed, all complete (with or without a retained copy), somebody left |
| QueueServer.MessageQueue.Distribute | NTDLS.CatMQ.Server/Server/SingleMessageQueueServer.cs:297-313 | marking, delivering, taking the verdict and counting; the queue stays consistent |
| QueueServer.MessageQueue.CollectDisposed | NTDLS.CatMQ.Server/Server/SingleMessageQueueServer.cs:207-210 | exactly the buffered objects with a verdict, in buffer order, with the buffer untouched |
| QueueServer.MessageQueue.RemoveFromBufferAndDatabase | NTDLS.CatMQ.Server/Server/Extensions.cs:40-53 | the object leaves buffer and, if open, database; its first occurrence only |
| QueueServer.MessageQueue.MoveMessageToDeadLetter | NTDLS.CatMQ.Server/CMqServer.cs:890-967 | the retry loop ends as CopiedExactly and LostExactly describe, and only a copy changes the dead-letter queue, by one deposit |
| QueueServer.MessageQueue.ApplyDispositions | NTDLS.CatMQ.Server/Server/SingleMessageQueueServer.cs:212-247 | second phase over two queue objects: both end as the sweep does that FatesByState and SweepConserves speak of, both consistent |
| QueueServer.MessageQueue.DeliveryTurn | NTDLS.CatMQ.Server/Server/SingleMessageQueueServer.cs:88-205 | a turn without its sweep leaves the queue as TurnIsPass says, consistent, and with the outstanding counter where it was |
| QueueServer.MessageQueue.ThreadTurn | NTDLS.CatMQ.Server/Server/SingleMessageQueueServer.cs:88-247 | one turn of the delivery thread over two queue objects that share no message: expiry, pick and one delivery pass, then the sweep of everything with a verdict, every copy made or not as the rounds of its move decide; both queues end exactly so, the first consistent and, if the moves succeed, with no verdict left waiting |
| QueueServer.MessageQueue.Purge | NTDLS.CatMQ.Server/Server/Extensions.cs:14-35 | collecting the keys and deleting them one by one empties the database |
| QueueServer.MessageQueue.PurgeQueue | NTDLS.CatMQ.Server/CMqServer.cs:1378-1428 | exactly an accepted purge empties database and buffer and zeroes the depth |
| QueueServer.MessageQueue.Subscribe | NTDLS.CatMQ.Server/CMqServer.cs:1152-1205 | adds the subscriber exactly if the loop ends well; twice is once |
| QueueServer.MessageQueue.Unsubscribe | NTDLS.CatMQ.Server/CMqServer.cs:1209-1246 | removes the subscriber exactly if the lock is obtained; an exception if and only if the deciding round is past the deadline: a missing queue or stopped server is none |
| ClientBatching.CutIsRight | NTDLS.CatMQ.Client/CMqClient.cs:538-566 | cutting loses, adds and reorders nothing; every batch is full except a short last one when everything must go; otherwise less than a batch stays |
| ClientBatching.CutIsUnique | NTDLS.CatMQ.Client/CMqClient.cs:538-566 | these rules determine the batches: there is no other way to meet them |
| ClientBatching.BatchingConserves | NTDLS.CatMQ.Client/CMqClient.cs:213-228 | over any run of registrations, receipts, flushes, unsubscriptions and resets, batches handed over followed by what is buffered is what was accepted, per subscription and in order, if and only if no reset has thrown anything away |
| ClientBatching.BatchingAccounts | NTDLS.CatMQ.Client/CMqClient.cs:464-488 | over any such run every accepted message was handed over, is buffered, or was thrown away by a reset, once |
| ClientBatching.ResetExact | NTDLS.CatMQ.Client/CMqClient.cs:464-488 | a reset, as connecting again makes, keeps this if and only if every buffer is empty when it happens |
| ClientBatching.FlushLeaves | NTDLS.CatMQ.Client/CMqClient.cs:496-572 | a forced flush empties the buffer of every live subscription, any flush leaves less than its batch size; the buffer of a subscription that is gone is never flushed |
| ClientBatching.FlushCutsOnce | NTDLS.CatMQ.Client/CMqClient.cs:515-566 | each live buffer is cut once per flush, by the batch size of its subscription, at least one, with the interval test decided before its first batch |
| ClientBatching.FlushHandsOver | NTDLS.CatMQ.Client/CMqClient.cs:515-566 | what is handed over and what stays is the buffer, in order; every batch has exactly the batch size (one if that is not positive), except a short last one, which comes only if forced or if a nonzero interval has passed since the last flush; then nothing stays, otherwise less than a batch; the flush time moves if and only if the buffer was empty or something was handed over |
| ClientBatching.Client.RegisterSubscription | NTDLS.CatMQ.Client/CMqClient.cs:133-144 | a second subscription to a queue is refused and changes nothing |
| ClientBatching.Client.InvokeOnReceived | NTDLS.CatMQ.Client/CMqClient.cs:199-237 | buffered and at once reported consumed, or answered by the handler, or not interested; exactly the first changes a buffer |
| ClientBatching.Client.CutBatches | NTDLS.CatMQ.Client/CMqClient.cs:538-566 | the inner loop cuts the buffer in place as specified and moves the flush time with the first batch |
| ClientBatching.Client.FlushBufferedMessages | NTDLS.CatMQ.Client/CMqClient.cs:496-578 | the two locks are tried once, or while forced until they are obtained, and the second is not needed without buffers; exactly then every live subscription is flushed in place, in any order of enumeration, as the laws above say |

## Left out

- 64-bit serials: a run draws no serial once the counter is about to wrap (2^64 messages); `NextSerialGrows` says exactly when it would.
- 32-bit queue depth and counters: unbounded integers.
- Lock timeouts, delivery throttle, thread yielding, wait events, back-off after exceptions: timing only; a lock not obtained is an action or a round that does nothing.
- The exception path of a delivery call outside its inner try block (message back to Ready): no statement there can throw in the model.
- RocksDB and log callbacks never throw; a corrupt or null record in the database is not modelled; the periodic flush and the write-ahead log are not either.
- A deferral's change of the message and its write to the database are one step; so is taking the snapshot of subscribers and marking the message.
- Runs keep message objects in a table and refer to them by position; QueueServer proves the same sections on heap objects, one queue at a time and without interference.
- QueueServer.MessageQueue.ThreadTurn: the synchronous case and without the hydration that may precede it, which is HydrateMessageBuffer; asynchronous deliveries are covered by the runs.
- DeadLetterMove.SweepConserves: the dead-letter queue does nothing else during the sweep; with its own activity in between this is DeadLetterRun.PairConserves.
- DeadLetterMove.EachMovedOnce: likewise; see DeadLetterRun.EachCopyAccounted.
- DeadLetterMove.NothingLost: likewise; see DeadLetterRun.PairConserves.
- In DeadLetterRun the source is at rest during the sweep, whose exclusive lock it holds; a delivery still in flight there may change messages, but none with a verdict.
- The order of deliveries of a queue with several at a time: beyond the order in which messages are picked, the source fixes none. That of deferred messages: they may be overtaken by design.
- Fairness of concurrent passes, or of passes not open to all subscribers: their counters can drift apart. Counters of a subscriber other than its attempts are not modelled.
- Runs take the order of subscribers as arbitrary, so they cover both ordering schemes without following the attempt counters.
- A run after Stop may do more than the thread would (it looks at the flag once per turn), so what is proved of runs covers it.
- Batches are recorded in the order in which they are cut; without force they are handed to the subscriber on tasks of their own, which may overtake each other.
- Lower-casing of queue names is that of the ASCII letters; validity of names and file-name collisions are not modelled.
- Deleting a queue's files, the waiting for its thread, and restoring the statistics of a queue beyond what Loaded takes as a parameter.
- Messages reaching subscribers (networking, acknowledgement, compression, reconnect): one delivery is a reply or a failure.
- The web service, management listings, instrumentation and historical statistics: plumbing and charts without laws of their own.
