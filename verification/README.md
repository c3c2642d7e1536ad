# Online judge: verified models of its state machines

A Dafny 4.11 model of the parts of the online judge that are hard to get right: the delivery of
submissions to judge workers, the shared worker pool, the streamed answers of the assistant service,
the assignment leaderboard with its Redis index, the MySQL connection pool and schema splitter, the log
of assistant jobs, and one stored bracket program. `dafny verify dfyconfig.toml` checks everything.

| file | content |
|---|---|
| `JudgeProtocol`, `JudgeRuns`, `JudgeLoss`, `JudgeVerdicts`, `JudgeDuplicates`, `JudgeTermination`, `JudgeAstray` | submission table, broker and dispatcher as one state machine; its invariant; exactly when a submission is lost; where verdicts come from; a run with duplicates; the retry budget as a measure; runs that leave a submission unjudged |
| `Dispatcher` | the dispatcher's methods over its vector of pending tasks, tied to that machine |
| `WorkerPool` | round robin with cooldown under interleaving threads |
| `SseStream`, `ChunkedTransfer`, `ChunkedBodies`, `AgentStream`, `AgentFailures` | event stream, incremental chunked coding, the whole-body decoders, the receive loops above them, and how they fail |
| `Leaderboard`, `SubmissionStore`, `LeaderboardRuns`, `LeaderboardSafety`, `LeaderboardExamples` | submissions, problem rows and rank rows; the transactions; exactness and safety over all runs; three concrete runs |
| `RankScore`, `RankCache`, `Board`, `BoardCells` | the encoded score, the read through Redis, the page and its cells |
| `ConnectionPool`, `SqlSplitter` | the monitor of the pool; the statement splitter |
| `JobLog` | the event log of an assistant job and the clients that poll it |
| `BracketSolver`, `BracketGrammar` | the stored bracket program and its hashes; the grammar of what it accepts |
| `Text`, `Numbers`, `Numerals` | `std::string::find`, `stoull`, `stoll`, the printers they invert and what they read |

## How the models are cut

* A call into the database, the broker or the network is a step that may succeed or fail; every
  combination of failures is allowed unless a lemma says otherwise. A transaction is one step, and a
  section under a mutex is one step.
* A publish that returns true has enqueued its message; the TTL of the retry queue returns the same body
  to the judge queue (`oj_platform/common/rabbitmq_client.cpp:79-96`). The connection
  may drop between a successful publish and the ack. An ack or nack on a lost connection has no effect, and
  the broker redelivers what was unacked.
* `JudgeService::submit` creates the record and publishes in one step. Its second write of the record
  (`oj_platform/services/oj_server/biz/judge_service.cpp:130-134`) is a step of its own, so that the
  dispatcher can run in between. Safety over runs does not assume that it comes in time: the bounds hold
  whatever it does, and `JudgeLoss.NoSubmissionLost` says exactly which rewrites lose a submission.
  `Timely` says that it does not find the submission judged already; only the absorption of verdicts needs
  that, as `LateWriteExact` and `LateWriteCanLose` show.
* One delivery loads the record twice in one step; `EarlyReturnNeverTaken` justifies it.
* Sums with a chunk size are taken modulo 2^64, as `size_t` takes them. Strings are shorter than that.
* A step is nack-free (`NackFree`) if it nacks no delivery, requeues none, loses no connection and restarts
  nothing. Loads, saves, threads and judging attempts may fail in every way that does not lead to a nack:
  a delivery whose handling throws is then made a dead letter and acked.
* A connection of the pool belongs to the thread that took it, which gives it back while it is not itself
  asking for another one.
* A leaderboard submission that is terminal is never rewritten to a non-terminal status; this is what
  `JudgeRuns.RunKeepsTerminal` proves of the dispatcher.
* The page of the leaderboard is assembled from one consistent snapshot, and the two MySQL reads of the
  rank rows in one request return the same rows.
* JSON is abstract: validity of a text and the message in it are parameters.

## What turned out false, and when it is true

* Terminal records are absorbing except for the late rewrite of `submit`: `LateWriteExact` gives the exact
  condition, `LateWriteCanLose` a run, and `NoSubmissionLost` the exact condition over whole runs.
* Without nacks and requeues a submission is judged after at most max_retry_count + 1 attempts, except when a
  delivery is made a dead letter while its mark fails, which is swallowed
  (`oj_platform/services/judge_dispatcher/main.cpp:349-355`), or when the late rewrite takes its verdict:
  `DeadLetterStrands` and `RewriteStrands` are runs, `EverySubmissionIsJudged` the exact condition.
* The leaderboard tables are exact except after a window was extended over submissions already judged, until
  each row concerned is rebuilt: `RescheduleExact`, `Reachable`, and the run `ExtensionLags`. Until then they
  never over-count (`NeverOverCounts`).
* They do over-count after a problem with stored rows was renumbered: the new number cascades into submissions
  and problem lists but not into the rows. `RenumberingOverCounts` is a run, `StepSafe` the exact condition,
  and the claims about safe tables hold while no renumbering finds a stored row.
* The connection pool loses no wake-up, but callers that hold one connection while they ask for a second can
  fill it and wait for each other for ever: `HoldAndWaitLocks`. `ServedExactly` is the exact condition.
* The cache read returns all users except when two members of the set read as one user: `LoadExact`,
  `ForeignMemberDropsUser`.
* The lax chunk decoder accepts more than the strict one, namely chunks without their separator:
  `StrictAcceptsExactly`, `LaxAcceptsMore`.
* The incremental loop differs from the strict decoder where a chunk size wraps a 64-bit sum:
  `PumpAgreesWithStrict`, `AcceptedByWrapping`. Such sizes can also send both whole-body decoders into an
  endless loop: `EndsWithinLength`, `EndlessBody`.
* A client that was told done can miss events appended after expiry: `AppendAfterExpiry`. It can miss none
  exactly when the job is done and its worker has appended its last event: `FrozenExactly`, `PollOfFinalLog`.
* The two round robins make the same picks until a 64-bit counter wraps, and beyond only when the number of
  workers divides 2^64: `SamePicks`.
* Rank scores as doubles are exact up to 9,007,199 solved problems and for no larger count: `ExactUpTo`.

## Model

| member | source | states |
|---|---|---|
| JudgeLoss.NoSubmissionLost | oj_platform/services/judge_dispatcher/main.cpp:200-370 | After any run from the start, with failed loads, saves and publishes, nacks, acks lost after a successful publish and the duplicates they leave, lost connections and restarts, a submission whose publish succeeded is terminal in the database or still has a message in the main, retry or dead queue or in an open delivery, if and only if its own late rewrite never took a verdict from it while no message of it was left. |
| JudgeLoss.LostForever | oj_platform/services/judge_dispatcher/main.cpp:272-282 | A submission without verdict, message and pending rewrite stays so in every continuation. |
| JudgeLoss.StepInvFor | oj_platform/services/judge_dispatcher/main.cpp:323-370 | For any set of submissions, every step keeps the invariant with nothing of that set lost, unless the step is such a rewrite of one of them. |
| JudgeRuns.StepInv | oj_platform/services/judge_dispatcher/main.cpp:323-370 | The invariant behind it is kept by every single step: submit, late rewrite, delivery, judging, collection, TTL expiry, connection loss, requeue and restart, each with any combination of failures; a late rewrite only has to leave a verdict alone, fail to be saved, belong to no accepted submission, or leave another message. |
| JudgeLoss.ReachableBounds | oj_platform/services/judge_dispatcher/main.cpp:200-300 | In every reachable state, whatever the late rewrites did, no tag was settled twice, pending tags are distinct and not settled, at most max_inflight tasks are pending, a record is accepted exactly when its status is OK, every message outside the dead queue has a retry count within the budget, and with the connection up every open delivery is a pending one. |
| JudgeLoss.EarlyReturnNeverTaken | oj_platform/services/judge_dispatcher/main.cpp:272-277 | Between the two loads of one delivery the server may submit and rewrite, workers may finish and the broker may move messages: a record that was not terminal at the first load is not terminal at the second, so the early return that would strand the delivery is never taken. This is why one delivery step may hold both loads. |
| JudgeRuns.TerminalAbsorbs | oj_platform/services/judge_dispatcher/main.cpp:161-184 | No step of dispatcher or broker takes a judged record back to QUEUED or RUNNING, even with duplicate deliveries of it pending; the only step exempted is an untimely late rewrite. |
| JudgeRuns.RunKeepsTerminal | oj_platform/services/judge_dispatcher/main.cpp:272-282 | The same over whole runs, those with several messages of one submission included. |
| JudgeDuplicates.JudgedTwiceAtOnce | oj_platform/services/judge_dispatcher/main.cpp:213-227 | Such a run from the start: the connection drops between the publish of a retry and the ack, and in the end two deliveries of one submission are being judged at once. |
| JudgeDuplicates.JudgedAgainAfterLoss | oj_platform/services/judge_dispatcher/main.cpp:323-346 | A run in which the connection drops during an attempt: after the restart the message is delivered and judged again, its second verdict is stored, and an empty message behind it is dropped. |
| JudgeRuns.RetryRaisesCount | oj_platform/services/judge_dispatcher/main.cpp:213-227 | Whatever newly stands in the retry queue was put there by collecting a temporary failure, carries the same task with exactly one more retry, and had budget left. |
| JudgeRuns.LateWriteExact | oj_platform/services/oj_server/biz/judge_service.cpp:130-134 | The rewrite that submit performs after publishing keeps terminal records terminal if and only if it does not find the submission judged already or is not saved. It loses no submission if and only if one of these holds, or its submission was not accepted, or a message of it is left. |
| JudgeRuns.LateWriteCanLose | oj_platform/services/oj_server/biz/judge_service.cpp:114-134 | A concrete run in which a dispatcher overtakes the submitting request: an accepted verdict is overwritten with QUEUED and no message is left in the broker. |
| JudgeProtocol.ExecuteJudgeTask | oj_platform/services/judge_dispatcher/main.cpp:106-159 | Every judging attempt that returns normally returns a terminal record in which accepted means OK. |
| JudgeVerdicts.VerdictIsStored | oj_platform/services/judge_dispatcher/main.cpp:106-159 | In every state within the bounds, judging an entry and collecting it without faults stores exactly the verdict of the attempt, accepted only if it is OK: what a worker answered, NOT_FOUND for a missing problem, a system error for a failure that is not transient. The delivery is settled, its message is gone, and nothing else has changed. |
| JudgeVerdicts.NoVerdictIsInvented | oj_platform/services/judge_dispatcher/main.cpp:106-211 | After any run from the start, a verdict other than the system error was answered by a worker to an attempt of that very submission, NOT_FOUND was found for it, and accepted means exactly OK. |
| JudgeVerdicts.TransientIsRetried | oj_platform/services/judge_dispatcher/main.cpp:213-228 | A transient failure leaves the record QUEUED and one message with one more retry in the retry queue, or, when the budget is spent, a system error and a dead letter. |
| JudgeVerdicts.TransientAfterVerdict | oj_platform/services/judge_dispatcher/main.cpp:161-167 | If a duplicate has been judged meanwhile the record stays; the message is still passed on and the delivery settled. |
| JudgeVerdicts.RefusedIsSystemError | oj_platform/services/oj_server/biz/judge_service.cpp:114-134 | A submission that could not be published gets no message, and its late rewrite makes it a system error. |
| JudgeVerdicts.NothingIsStored | oj_platform/services/judge_dispatcher/main.cpp:106-111 | An attempt whose record cannot be loaded stores nothing, whatever else fails, and its message goes back to the queue. |
| JudgeVerdicts.TransientExactly | oj_platform/services/judge_dispatcher/dispatcher_utils.cpp:38-46 | A failure is transient exactly if one of seven phrases stands anywhere in its text. |
| JudgeProtocol.HandlingReroute | oj_platform/services/judge_dispatcher/main.cpp:213-228 | Whatever fails in the retry and dead-letter branch, a connection that drops between publish and ack included, acking the delivery after its success and nacking it after a failure keeps the protocol invariant, in which nothing is lost. |
| JudgeProtocol.HandlingRescue | oj_platform/services/judge_dispatcher/main.cpp:347-364 | The rescue of a delivery whose handling threw keeps the protocol invariant, for tasks, malformed bodies and empty bodies and whatever fails in it, the ack after the dead letter included. |
| JudgeTermination.ConsumeNackFreeExactly | oj_platform/services/judge_dispatcher/main.cpp:337-365 | What nack-free means for a delivery: the connection holds and the message in hand does not go back to the queue. Failed loads, saves and threads are allowed. |
| JudgeTermination.CollectNackFreeExactly | oj_platform/services/judge_dispatcher/main.cpp:200-264 | The same for the collection of a finished attempt. |
| JudgeTermination.StepMeasured | oj_platform/services/judge_dispatcher/main.cpp:200-370 | Each nack-free step that touches a submission strictly lowers the lexicographic measure (remaining retries, stage of the round), in which a dead letter counts nothing, and every other step leaves it alone; no assumption about the late rewrite. |
| JudgeTermination.MovesAreBounded | oj_platform/services/judge_dispatcher/main.cpp:213-227 | In nack-free runs any set of k accepted submissions of a reachable world is moved at most k * (4 * max_retry_count + 4) times more. |
| JudgeTermination.EverySubmissionIsJudged | oj_platform/services/judge_dispatcher/main.cpp:200-370 | After any nack-free run an accepted submission has been judged at most max_retry_count + 1 times; and at rest, with no attempt left whose future throws, it is terminal if and only if no delivery of it was made a dead letter while the mark failed on a record not terminal, and its late rewrite took no verdict. |
| JudgeTermination.StepStrays | oj_platform/services/judge_dispatcher/main.cpp:347-360 | A nack-free step leaves a submission without verdict and without a message to be judged exactly if it was so before or the step is one of those two. |
| JudgeAstray.DeadLetterStrands | oj_platform/services/judge_dispatcher/main.cpp:339-360 | A nack-free run that does it: both loads throw, the failed mark is swallowed, the dead letter is published and acked; nothing more can happen, the record stays QUEUED and no attempt was made. |
| JudgeAstray.RewriteStrands | oj_platform/services/oj_server/biz/judge_service.cpp:130-134 | The late rewrite does it in a nack-free run without any failure. |
| JudgeTermination.RestExactly | oj_platform/services/judge_dispatcher/main.cpp:200-370 | No nack-free step moves a submission any more if and only if every message to be judged is blocked: in the hands of an attempt whose future throws, which only a nack can settle, or in the queue while max_inflight tasks are pending. |
| JudgeTermination.SpentIsJudged | oj_platform/services/judge_dispatcher/main.cpp:200-264 | The measure of an accepted submission is zero if and only if it is terminal or led astray in this way. |
| JudgeTermination.FinishingRun | oj_platform/services/judge_dispatcher/main.cpp:323-370 | From every such state without a throwing future some nack-free run without new submissions, no longer than the measure, ends with every accepted submission terminal that was not astray already. |
| Dispatcher.Process.CollectFinishedTasks | oj_platform/services/judge_dispatcher/main.cpp:200-264 | The erase-while-iterating loop over pending_tasks does exactly one collect step per ready entry, in order, and leaves the others in place. |
| Dispatcher.Process.Handle | oj_platform/services/judge_dispatcher/main.cpp:337-365 | The body of the main loop for one delivery is the delivery step of the protocol, with its failures. |
| Dispatcher.PassIsRun | oj_platform/services/judge_dispatcher/main.cpp:204-263 | One pass of the loop is a run of protocol steps and leaves no entry whose future was ready. |
| Dispatcher.PassKeepsInv | oj_platform/services/judge_dispatcher/main.cpp:200-264 | So a whole pass keeps the protocol invariant. |
| WorkerPool.NoStarvation | oj_platform/services/judge_dispatcher/worker_client.cpp:175-195 | Under any interleaving of selections and failures of any threads, a worker that stays out of cooldown is chosen within n selections. |
| WorkerPool.DistanceFalls | oj_platform/services/judge_dispatcher/worker_client.cpp:183-194 | A selection that passes an available worker by strictly shortens the cyclic distance from the scan start to it. |
| WorkerPool.FairShares | oj_platform/services/judge_dispatcher/worker_client.cpp:175-195 | With nobody cooling, any k selections give each worker floor or ceiling of k / n. |
| WorkerPool.PicksAreRoundRobin | oj_platform/services/judge_dispatcher/worker_client.cpp:183-194 | With nobody cooling the selections are the plain round robin from next_index. |
| WorkerPool.SamePicks | oj_platform/services/judge_dispatcher/dispatcher_utils.cpp:141-145 | With nobody cooling, pool and RoundRobinSelector that start at the same worker make the same picks, up to 2^64 of them, if and only if the 64-bit counter does not wrap or the number of workers divides 2^64. |
| WorkerPool.Draw | oj_platform/services/judge_dispatcher/dispatcher_utils.cpp:141-145 | The selector picks compared there are what successive calls of next() return, wrap-around included. |
| WorkerPool.WorkerPool.SelectWorker | oj_platform/services/judge_dispatcher/worker_client.cpp:179-195 | The scan under the lock picks the first available worker from next_index on and moves next_index behind it, or picks none and changes nothing. |
| WorkerPool.WorkerPool.Judge | oj_platform/services/judge_dispatcher/worker_client.cpp:167-222 | With other threads acting between the lock sections: at most n attempts; the answer is that of the last worker tried after failures only; the exception names every failure, is transient, and comes early only when every worker is cooling. With a clock that runs forward each worker that failed is unavailable until its failure plus the cooldown, and is tried again in the same call only after that. |
| WorkerPool.LeftAlone | oj_platform/services/judge_dispatcher/worker_client.cpp:205-208 | A worker that failed is not chosen before its failure plus the cooldown, whatever any thread does in the meantime. |
| WorkerPool.ServedAgain | oj_platform/services/judge_dispatcher/worker_client.cpp:183-194 | From then on, unless it failed again, it is chosen within n selections. |
| WorkerPool.ThrownIsTransient | oj_platform/services/judge_dispatcher/dispatcher_utils.cpp:38-46 | Both messages that a non-empty pool throws are recognised as transient, whatever details follow, and they differ. |
| AgentStream.StreamRoundTrip | oj_platform/services/oj_server/biz/agent_client.cpp:650-774 | End to end: for any events the service prints, any split of that text into non-empty chunks and any cut of the response bytes into recv pieces, the callback receives exactly those events in order, the stream finishes, and the answer is the last done event. |
| AgentStream.PlainRoundTrip | oj_platform/services/oj_server/biz/agent_client.cpp:746-768 | The same without chunked coding, once the peer closes; a failed recv gives no answer. |
| AgentFailures.StreamFails | oj_platform/services/oj_server/biz/agent_client.cpp:650-774 | The same with an error event, or a done event that is no JSON, and any bytes behind it: the callback receives the events up to and including that one, and the call throws the message of the error event, its text when it is no JSON, or the stock text when that is empty. |
| AgentFailures.PlainFails | oj_platform/services/oj_server/biz/agent_client.cpp:746-768 | The same without chunked coding. |
| AgentFailures.BadSizeFails | oj_platform/services/oj_server/biz/agent_client.cpp:704-712 | A chunk line that reads as no number ends the call, after the events of the chunks before it, in whatever way the bytes are cut. |
| AgentFailures.EarlyEnd | oj_platform/services/oj_server/biz/agent_client.cpp:734-744 | A chunked body that ends before its closing chunk: a close still gives the last answer, or none; a failed recv gives none. |
| AgentFailures.NoHeadFails | oj_platform/services/oj_server/biz/agent_client.cpp:654-662 | Without a complete head nothing is reported, and the call says whether the peer closed or recv failed. |
| AgentFailures.ChunkedExactly | oj_platform/services/oj_server/biz/agent_client.cpp:688-689 | The chunked loop is taken exactly if the transfer-encoding field stands in the head, in whatever letter case. |
| AgentFailures.ExtensionsAreSkipped | oj_platform/services/oj_server/biz/agent_client.cpp:703-707 | A chunk size is read up to the first semicolon, whatever follows it. |
| Numerals.ScanMeans | oj_platform/services/oj_server/biz/agent_client.cpp:703-712 | std::stoull in base 16 and std::stoll read a number by its written form: blanks, a sign, perhaps 0x, digits in either case by their places, and nothing of what follows them. |
| Numerals.ScanRejects | oj_platform/services/oj_server/biz/agent_client.cpp:703-712 | They reject a text with no digit behind blanks and sign. |
| AgentStream.CutsDoNotMatter | oj_platform/services/oj_server/biz/agent_client.cpp:654-768 | On arbitrary bytes, from any point of head, chunk loop or event stream, the reported events and the first failure are those of all the bytes in one piece. |
| AgentStream.RecvSegmentation | oj_platform/services/oj_server/biz/agent_client.cpp:663-672 | Receiving a then b equals receiving a + b: head split, chunk loop and event buffer. |
| AgentStream.ReadChatStream | oj_platform/services/oj_server/biz/agent_client.cpp:650-774 | The receive loops, with their in-place buffers and flags, return the events and the outcome (answer, or which exception) of that function of the pieces. |
| AgentStream.DecodeEncoded | oj_platform/services/oj_server/biz/agent_client.cpp:694-731 | Any conforming chunked body, with extensions and trailer, decodes strictly to its payload, wraps no sum and contains its closing chunk. |
| SseStream.SseRoundTrip | oj_platform/agent-service/app/schemas/streaming.py:6-10 | The event-stream reader inverts sse_event on every list of printable events, leaving an empty buffer. |
| SseStream.FatalRoundTrip | oj_platform/services/oj_server/biz/agent_client.cpp:410-424 | A fatal event behind printable ones, and any text behind it: exactly these events are reported, and the stream fails in the way that event says. |
| SseStream.BlockMeans | oj_platform/services/oj_server/biz/agent_client.cpp:387-408 | Whatever lines a block has, it is read as the last name given, or message, and the data lines joined by line breaks without empty ones at the top; blanks in front of values and all other lines are skipped. |
| SseStream.EmptyBlockIsNothing | oj_platform/services/oj_server/biz/agent_client.cpp:381-385 | An empty block between events is no event. |
| SseStream.FeedSegmentation | oj_platform/services/oj_server/biz/agent_client.cpp:370-425 | Feeding a + b equals feeding a, then b: same events up to the same first failure, on arbitrary bytes. |
| SseStream.FeedLeavesNoBlock | oj_platform/services/oj_server/biz/agent_client.cpp:375-382 | Between feeds the buffer holds no blank-line separator and no carriage return. |
| SseStream.Reader.FeedData | oj_platform/services/oj_server/biz/agent_client.cpp:364-426 | The loop that appends to and erases from the buffer in place computes that function, callbacks, done flag and exceptions included. |
| ChunkedTransfer.ReceiveSegmentation | oj_platform/services/oj_server/biz/agent_client.cpp:697-745 | The incremental chunk loop does not depend on where the bytes are cut. |
| ChunkedBodies.PumpAgreesWithStrict | oj_platform/services/oj_server/biz/agent_client.cpp:694-745 | On a body the strict whole-body decoder accepts, the incremental loop delivers the same payload if and only if no chunk size wraps the 64-bit sum, or the events before the first that does end the stream; and then it finishes exactly when the closing chunk has arrived whole. |
| ChunkedBodies.WrapsExactly | oj_platform/services/oj_server/server/routes.cpp:834-851 | A sum wraps exactly when start and size on the line reach 2^64; otherwise the chunk is whole and the cursor moves behind it. |
| ChunkedBodies.AcceptedByWrapping | oj_platform/services/oj_server/server/routes.cpp:846-856 | The strict decoder accepts a size of minus two by wrapping and returns the rest of the body as payload; the incremental loop throws on the same bytes. |
| ChunkedTransfer.MinusOneWaits | oj_platform/services/oj_server/biz/agent_client.cpp:714-716 | A size of minus one makes the loop wait for one more byte and then throw. |
| ChunkedBodies.LaxAgreesWithStrict | oj_platform/services/oj_server/biz/agent_client.cpp:138-161 | Wherever the strict decoder succeeds the lax one returns the same bytes, wrapped sums included. |
| ChunkedBodies.StrictAcceptsExactly | oj_platform/services/oj_server/server/routes.cpp:853-856 | Of the bodies the lax decoder accepts, the strict one accepts exactly those in which the separator follows every chunk read. |
| ChunkedBodies.LaxAcceptsMore | oj_platform/services/oj_server/biz/agent_client.cpp:154-158 | An input for the difference: a chunk without a separator after it. |
| ChunkedBodies.DecodeBody | oj_platform/services/oj_server/server/routes.cpp:820-860 | The first so many rounds of either whole-body loop do what the lemmas speak of: decode, reject, or are not at an end. |
| ChunkedBodies.EndsWithinLength | oj_platform/services/oj_server/biz/agent_client.cpp:141-159 | Either decoder ends within as many rounds as the body has bytes or never, and never exactly when its cursor comes back to a place it was at. |
| ChunkedBodies.OnlyWrapsLoop | oj_platform/services/oj_server/biz/agent_client.cpp:141-159 | A body without a wrapped sum is never looped over. |
| ChunkedBodies.EndlessBody | oj_platform/services/oj_server/server/routes.cpp:846-856 | A body of ten bytes from which neither decoder ever returns. |
| LeaderboardSafety.StepMaterialised | oj_platform/services/oj_server/data/submission_repository.cpp:518-613 | When every problem row is the aggregate over all counted submissions and every rank row the fold of the rows of its user, a transaction keeps it so if and only if it neither widens a window over submissions already judged nor renumbers a problem that has a stored row. |
| LeaderboardSafety.Reachable | oj_platform/services/oj_server/data/submission_repository.cpp:518-632 | In every run from an empty database rank rows stay exact folds of the problem rows. As long as no renumbering finds a stored row, the tables are safe and the wrong rows are exactly those some widening took judged submissions into and no judgement has rebuilt since; the tables are exact if and only if there are none. |
| LeaderboardRuns.StepExact | oj_platform/services/oj_server/data/submission_repository.cpp:518-613 | What each transaction does to each key: a counted judgement makes its own row exact, a widening over judged submissions makes theirs wrong, a renumbering carries both over to the new number, everything else changes nothing. |
| LeaderboardRuns.StepSafe | oj_platform/services/oj_server/data/problem_repository.cpp:132-155 | A transaction keeps the tables safe if and only if it does not renumber a problem under whose old number a row is stored. |
| LeaderboardRuns.RenumberExact | oj_platform/sql/schema.sql:120-124 | While there is no such row, a renumbered problem is as exact under its new number as it was under the old one, since submissions and problem lists follow it. |
| LeaderboardExamples.ExtensionLags | oj_platform/services/oj_server/data/assignment_repository.cpp:437-443 | A run with such a widening: a submission after the end, judged, and an extension over it; the tables are exact before it, and afterwards the submission counts and no row says so. |
| LeaderboardExamples.RenumberingOverCounts | oj_platform/services/oj_server/server/routes.cpp:2052-2067 | A run with such a renumbering: one problem, accepted, renumbered, sent again and accepted again; the row under the old number stays, and the rank row counts two problems, 200 points and twice the penalty. |
| LeaderboardSafety.JudgingOrderIrrelevant | oj_platform/services/oj_server/data/submission_repository.cpp:585-613 | Two orders of judging that end in the same submissions end in the same tables. |
| LeaderboardSafety.ExactTablesAgree | oj_platform/services/oj_server/data/submission_repository.cpp:243-325 | Exact tables are determined by schedules, problem lists and submissions alone. |
| Leaderboard.UpdateMaterialised | oj_platform/services/oj_server/data/submission_repository.cpp:585-613 | update_submission, counted or not, first judging or repeated, keeps both tables exact. |
| LeaderboardSafety.ExactRow | oj_platform/services/oj_server/data/submission_repository.cpp:226-325 | In exact tables each problem row describes the counted submissions of its key directly: how many, whether one was accepted, the first such time with the penalty from the start and 100 points, the largest id, and the status and time of the newest by (time, id). |
| RankScore.RankCountsProblems | oj_platform/services/oj_server/data/submission_repository.cpp:367-397 | In safe tables a rank row counts the accepted problems of its user, a hundred points each. |
| LeaderboardExamples.FirstAcceptanceShows | oj_platform/services/oj_server/data/submission_repository.cpp:518-632 | The run that creates an assignment and judges one submission accepted at a time in the window ends in exactly the one problem row and the one rank row that the rules ask for, and nothing else. |
| LeaderboardExamples.LastSecond | oj_platform/services/oj_server/data/assignment_repository.cpp:545-547 | In its last second an assignment still takes a new problem, and a submission to it; a second later it takes no problem. |
| LeaderboardSafety.FoldMeans | oj_platform/services/oj_server/data/submission_repository.cpp:251-316 | What the aggregates are: the earliest acceptance, the status of the newest submission by (time, id), the latest time and the largest id, each attained by a selected submission and extreme among them; absent exactly when there is none. |
| LeaderboardSafety.FoldCounts | oj_platform/services/oj_server/data/submission_repository.cpp:251-264 | The count is the number of selected submissions. |
| Leaderboard.SumTakes | oj_platform/services/oj_server/data/submission_repository.cpp:375-383 | The sums over a user do not depend on the order the rows are read in. |
| SubmissionStore.Database.UpdateSubmission | oj_platform/services/oj_server/data/submission_repository.cpp:518-632 | The transaction, statement by statement, ends in that new state or, when the id is unknown or anything throws, in the old one; a score is published exactly when the submission counts, and it is the stored one. |
| SubmissionStore.Database.BuildRankStats | oj_platform/services/oj_server/data/submission_repository.cpp:367-397 | The rank snapshot is the sum over the rows of the user in whatever order they are read. |
| SubmissionStore.Database.UpdateAssignment | oj_platform/services/oj_server/data/assignment_repository.cpp:418-447 | The schedule checks, one by one, accept exactly the permitted changes and change nothing otherwise. |
| Leaderboard.RescheduleAccepts | oj_platform/services/oj_server/data/assignment_repository.cpp:421-447 | Of a proper schedule exactly these changes are accepted: an earlier positive start before the old one has come, and a later end; the last check never fires. |
| LeaderboardSafety.RunSafe | oj_platform/services/oj_server/data/submission_repository.cpp:226-325 | Over every run in which no renumbering finds a stored row, widenings included: every submission of an assignment was created at or after its start, rank rows are exact folds, each problem row is the exact view for some window no wider than the current one, and the wrong rows are those the steps name. |
| LeaderboardSafety.NeverOverCounts | oj_platform/services/oj_server/data/submission_repository.cpp:243-325 | In safe tables a stored row never counts a submission too many, and what it says of an accepted problem (time, penalty, score) is exact. |
| LeaderboardSafety.PenaltyBounded | oj_platform/services/oj_server/data/submission_repository.cpp:46-51 | An accepted penalty is the distance of the first acceptance from the start and at most the length of the window; a row not accepted has neither score nor penalty. |
| LeaderboardSafety.RescheduleExact | oj_platform/services/oj_server/data/assignment_repository.cpp:421-447 | A permitted schedule change keeps the tables exact if and only if no submission judged already falls into the part of the window it adds. |
| LeaderboardRuns.WindowOnlyWidens | oj_platform/services/oj_server/data/assignment_repository.cpp:430-443 | No transaction moves a start later or an end earlier. |
| LeaderboardRuns.StartMovesOnlyBeforeSubmissions | oj_platform/services/oj_server/server/routes.cpp:1900-1903 | A start can still be moved only while the assignment has no submission at all. |
| RankScore.ScoresAreStandings | oj_platform/services/oj_server/data/submission_repository.cpp:53-55 | In safe tables, when problems times window length is below 10^9, comparing rank scores is exactly comparing by more solved, then smaller penalty, and the score gives the pair back. |
| RankScore.DecodeEncode | oj_platform/services/oj_server/data/submission_repository.cpp:53-55 | The pair is recoverable from the score if and only if the penalty lies in [0, 10^9). |
| RankScore.UserBounded | oj_platform/services/oj_server/data/submission_repository.cpp:375-393 | A rank row solves at most the listed problems and its penalty is at most solved times the window length. |
| RankScore.ExactUpTo | oj_platform/services/oj_server/data/submission_repository.cpp:630 | A solved count keeps all its scores in the conversion to double, whatever the penalty, if and only if it is at most 9,007,199. |
| RankScore.NearestDouble | oj_platform/services/oj_server/data/submission_repository.cpp:630 | The conversion is that of IEEE 754: the nearest multiple of the spacing of the doubles around the score, and the even one half way between. |
| RankScore.DoubleLosesASecond | oj_platform/services/oj_server/data/submission_repository.cpp:27 | At 9,007,200 solved, penalties 0 and 1 become the same double. |
| RankScore.SortedSetOrders | oj_platform/services/oj_server/data/submission_repository.cpp:625-631 | Within both bounds the order of the sorted set is the order of the standings. |
| RankCache.LoadExact | oj_platform/services/oj_server/data/assignment_leaderboard_repository.cpp:135-204 | Whatever the sorted set holds, the returned rows are a permutation of the MySQL rows if and only if it is not the case that the cache is believed while two of its members read as the same stored user. |
| RankCache.BelievedExactly | oj_platform/services/oj_server/data/assignment_leaderboard_repository.cpp:159-203 | Unless two members collide, the set is believed exactly if it exists, lists something and names every user of the table. |
| RankCache.PlatformMembersAreSafe | oj_platform/services/oj_server/data/assignment_leaderboard_repository.cpp:175-189 | With distinct members that are canonical ids, or no numbers at all, that is always so. |
| RankCache.ForeignMemberDropsUser | oj_platform/services/oj_server/data/assignment_leaderboard_repository.cpp:176-181 | With foreign members "1" and "01" the cache read repeats one user and drops another. |
| RankCache.RankedIffDescending | oj_platform/services/oj_server/data/assignment_leaderboard_repository.cpp:300-321 | The rank rule by runs of equal scores shows every user 1 + the number of strictly greater scores if and only if the rows come in descending order. |
| RankCache.CacheIsInvisible | oj_platform/services/oj_server/data/assignment_leaderboard_repository.cpp:159-203 | With current scores in the cache each user is shown the same rank as from MySQL alone, despite different orders among ties. |
| RankCache.RefillThenRead | oj_platform/services/oj_server/data/assignment_leaderboard_repository.cpp:189-198 | Any listing of what a refill of an empty set wrote is coherent and is used by the next read. |
| RankCache.LoadRankRows | oj_platform/services/oj_server/data/assignment_leaderboard_repository.cpp:135-204 | The loop and its three fallbacks return those rows and flag, and write every MySQL row to the set exactly on a fallback. |
| Board.EntriesAddUp | oj_platform/services/oj_server/data/assignment_leaderboard_repository.cpp:295-357 | For any assignment of any safe database, read as one snapshot: the solved count, score and penalty of each entry are the sums over its cells (penalty over accepted cells). |
| Board.ColumnsAddUp | oj_platform/services/oj_server/data/assignment_leaderboard_repository.cpp:323-357 | Submission and accepted totals of each column are the sums down the entries. |
| Board.PageRankIsStanding | oj_platform/services/oj_server/data/assignment_leaderboard_repository.cpp:300-321 | The rank on the page is 1 + the number of users with a strictly better standing. |
| Board.FillRowsConserves | oj_platform/services/oj_server/data/assignment_leaderboard_repository.cpp:323-357 | The loop invariant behind it: after any prefix of the rows every entry, column and counter adds up and untouched cells are blank. |
| Board.RankEntries | oj_platform/services/oj_server/data/assignment_leaderboard_repository.cpp:300-321 | The loop over the rank rows builds the ranked, blank entries and the index that keeps the first entry of a user. |
| Board.AssemblePage | oj_platform/services/oj_server/data/assignment_leaderboard_repository.cpp:293-357 | The two loops compute the page that the lemmas speak of. |
| BoardCells.CellsShowRows | oj_platform/services/oj_server/data/assignment_leaderboard_repository.cpp:323-357 | For any rows with distinct keys, the cell of an entry and a column shows the row of that user and problem: solved exactly if it is accepted, otherwise its last status; its counts, points and both times; the penalty, or the waiting time if unsolved. Without a row it says untried. |
| BoardCells.CellsTellSubmissions | oj_platform/services/oj_server/data/assignment_leaderboard_repository.cpp:295-357 | Over exact tables every cell speaks of the submissions: how many count, whether and when one was first accepted, and the status and time of the newest. |
| ConnectionPool.PoolIsBounded | oj_platform/services/oj_server/data/mysql_client.cpp:384-434 | After any interleaving: total is idle plus lent plus being opened and at most the maximum, and no connection is both idle and lent or idle twice, failed opens and closed connections included. |
| ConnectionPool.NoLostWakeUp | oj_platform/services/oj_server/data/mysql_client.cpp:389-391 | Whenever a thread sleeps un-notified while a place is free, some notified thread is on its way to it. |
| ConnectionPool.StepInv | oj_platform/services/oj_server/data/mysql_client.cpp:384-434 | The invariant, in which un-notified sleepers bound the free places by the notified ones, is kept by every step, spurious wake-ups included. |
| ConnectionPool.ServedExactly | oj_platform/services/oj_server/data/mysql_client.cpp:384-434 | A thread that waits can still leave with a connection or a place to open one, in some continuation without spurious wake-ups, if and only if the pool is not locked: something is idle, below the maximum or being opened, or some holder of a lent connection does not itself wait for another. |
| ConnectionPool.OneEachNeverLocks | oj_platform/services/oj_server/data/mysql_client.cpp:384-434 | Among callers that hold at most one connection at a time it never locks. |
| ConnectionPool.HoldAndWaitLocks | oj_platform/services/oj_server/data/assignment_repository.cpp:566-581 | A run in which as many callers as the pool has places take one connection each and then ask for a second, as adding problems to an assignment does: none is ever served again. |
| ConnectionPool.IdlePoolHasNoSleepers | oj_platform/services/oj_server/data/mysql_client.cpp:384-434 | While a thread waits, a connection is lent or being opened or a thread is waking up. |
| ConnectionPool.ResumeGetsFreePlace | oj_platform/services/oj_server/data/mysql_client.cpp:389-407 | A woken thread that finds a free place leaves with a connection or opens one; it does not sleep again. |
| ConnectionPool.Monitor.ReleaseHandle | oj_platform/services/oj_server/data/mysql_client.cpp:410-433 | Releasing returns the connection to the idle list or, when closed, gives up its place, and wakes one waiter. |
| ConnectionPool.Monitor.CreateConnection | oj_platform/services/oj_server/data/mysql_client.cpp:384-409 | What a caller does from the lock to its release, on entering or after a wake-up, is that step of the machine; a handle it returns was lent to nobody before and belongs to this thread now. |
| ConnectionPool.Monitor.TakePlace | oj_platform/services/oj_server/data/mysql_client.cpp:387-398 | One pass of the lending section: take the newest idle connection, reserve a place, or sleep. |
| ConnectionPool.Monitor.FinishOpening | oj_platform/services/oj_server/data/mysql_client.cpp:399-406 | A successful open lends the connection, a failed one gives the place back and wakes one waiter. |
| SqlSplitter.SplitMeans | oj_platform/services/oj_server/data/mysql_client.cpp:36-85 | A script made of quoted texts, line comments, semicolons and other characters is split into the stretches between its semicolons, each comment worth a line break and quoted text untouched, trimmed, the empty ones left out. |
| SqlSplitter.EveryScript | oj_platform/services/oj_server/data/mysql_client.cpp:36-85 | Every script is made of these, up to an open quote or comment at its end, which SplitMeans covers. |
| SqlSplitter.SplitRendered | oj_platform/services/oj_server/data/mysql_client.cpp:36-85 | Statements of quoted pieces and bare characters, each ended by a semicolon and preceded by any white space and comment lines, are split into exactly themselves. |
| SqlSplitter.SplitJoined | oj_platform/services/oj_server/data/mysql_client.cpp:36-85 | Joining such statements with ";" and splitting gives them back. |
| SqlSplitter.OutputsTrimmed | oj_platform/services/oj_server/data/mysql_client.cpp:68-83 | For every script no output is empty or untrimmed. |
| SqlSplitter.CommentIsNewline | oj_platform/services/oj_server/data/mysql_client.cpp:46-60 | Anywhere outside quotes a line comment, whatever it contains, is worth exactly a line break. |
| SqlSplitter.CommentAtBoundary | oj_platform/services/oj_server/data/mysql_client.cpp:46-60 | Between statements it changes nothing. |
| SqlSplitter.SplitStatements | oj_platform/services/oj_server/data/mysql_client.cpp:36-85 | The loop with its two quote flags computes that splitting. |
| JobLog.RunInv | oj_platform/services/oj_server/server/routes.cpp:156-183 | Under any interleaving of appends, finish, expiry and polls, ids are 1..n, every client holds a prefix of the log, and an answer under way continues it. |
| JobLog.PrefixHasNoDuplicates | oj_platform/web/agent.js:385-397 | What a client has handled has strictly increasing ids. |
| JobLog.DoneAnswerIsComplete | oj_platform/services/oj_server/server/routes.cpp:1110-1126 | A poll answered done brings the client the whole log so far, with a done or error event among the new events. |
| JobLog.DeliverInv | oj_platform/web/agent.js:385-463 | After handling an answer a client has ended exactly when it has handled a done or error event. |
| JobLog.PollAfterConclusionEnds | oj_platform/services/oj_server/server/routes.cpp:1086-1133 | A poll answered once a done or error event is logged ends the client with all that is logged, or up to its first error event. |
| JobLog.PollOfFinalLog | oj_platform/services/oj_server/server/routes.cpp:1086-1133 | What that client holds is all there will ever be, in every continuation, if and only if the job was done and its worker had appended its last event. |
| JobLog.FrozenExactly | oj_platform/services/oj_server/server/routes.cpp:1065-1074 | In every reachable state: no continuation changes the log any more if and only if the job is done and its worker has appended its last event. |
| JobLog.AppendAfterExpiry | oj_platform/services/oj_server/server/routes.cpp:170-183 | A concrete run in which the worker appends after expiry and the client, told done, never sees it. |
| JobLog.ConversationArrives | oj_platform/services/oj_server/server/routes.cpp:1086-1133 | An ordinary conversation: what the worker forwards and concludes with reaches a client that asks afterwards, whole and in order, and ends it. |
| JobLog.LostPollEnds | oj_platform/web/agent.js:385-463 | A poll that fails ends the client with what it had, in every continuation. |
| JobLog.Job.Read | oj_platform/services/oj_server/server/routes.cpp:1110-1126 | The loop under the lock answers the done flag and exactly the events newer than the given id. |
| JobLog.Job.ExpireIfStale | oj_platform/services/oj_server/server/routes.cpp:170-183 | Expiry appends one error event and sets done exactly when the job is older than 240 seconds and not done. |
| JobLog.StoppedAfterFourMinutes | oj_platform/services/oj_server/server/routes.cpp:170-183 | A running job looked at 240 seconds after its creation goes on; later the look stops it with one error event. |
| JobLog.NewerIsSuffix | oj_platform/services/oj_server/server/routes.cpp:1115-1118 | Those events are the suffix of the log after that id. |
| BracketSolver.SolverOneSide.BuildBadR | oj_platform/runtime/judge_worker/submission_5024064148394/main.cpp:118-144 | badR[l] is, for every l, the first right end at which direct reduction from l meets an unmatched or mismatched closer, n + 1 when there is none. |
| BracketSolver.FirstBadIsFirst | oj_platform/runtime/judge_worker/submission_5024064148394/main.cpp:87 | First in the exact sense: r lies before it if and only if the reduction of s[l..r] succeeds. |
| BracketSolver.ReduceIsSuffix | oj_platform/runtime/judge_worker/submission_5024064148394/main.cpp:161-205 | Until it fails, the residue of s[l..r] is the part of the one global stack from position l up. |
| BracketSolver.FailsExactly | oj_platform/runtime/judge_worker/submission_5024064148394/main.cpp:128-141 | A right end is the first failure of exactly the left ends above the bracket it fits, or of all when it fits none. |
| BracketSolver.SolverOneSide.FindNext | oj_platform/runtime/judge_worker/submission_5024064148394/main.cpp:100-104 | Path compression returns the least unassigned position and keeps every pointer sound. |
| BracketSolver.SolverOneSide.AssignRange | oj_platform/runtime/judge_worker/submission_5024064148394/main.cpp:107-115 | Exactly the unassigned positions of the range get the value. |
| BracketSolver.SuffixHash | oj_platform/runtime/judge_worker/submission_5024064148394/main.cpp:148-152 | From prefix hashes and powers the hash of any suffix is its polynomial hash modulo both primes. |
| BracketSolver.QueryIsAnswered | oj_platform/runtime/judge_worker/submission_5024064148394/main.cpp:193-204 | For a query that does not fail, the suffix hash at the lower bound is the hash of the residue of s[l..r]. |
| BracketSolver.SolverOneSide.CollectLeftLike | oj_platform/runtime/judge_worker/submission_5024064148394/main.cpp:155-209 | The returned counts are, for each hash, the number of queries whose direct reduction succeeds with that hash. |
| BracketSolver.ResiduesStep | oj_platform/runtime/judge_worker/submission_5024064148394/main.cpp:158-160 | Grouping the queries by right end loses none and repeats none. |
| BracketSolver.Powers | oj_platform/runtime/judge_worker/submission_5024064148394/main.cpp:219-224 | The table holds the powers of both bases modulo both primes. |
| BracketGrammar.AcceptedExactly | oj_platform/runtime/judge_worker/submission_5024064148394/main.cpp:58-68 | By a grammar without a stack: the reduction of a text succeeds if and only if it can still be completed to properly nested brackets of the four kinds. |
| BracketGrammar.ReducedIsPrefix | oj_platform/runtime/judge_worker/submission_5024064148394/main.cpp:118-144 | The residue are exactly the openers still to be closed. |
| BracketGrammar.HashOfOpeners | oj_platform/runtime/judge_worker/submission_5024064148394/main.cpp:71-76 | The hash counted for such a query is that of its open brackets, one prime for each kind, and of nothing else in its text. |

## Left out

* Sockets, AMQP, the MySQL and Redis drivers, MinIO, processes and limits: only their success and failure.
* More than one dispatcher process at a time. A restart drops the pending tasks of the one dispatcher; their deliveries are requeued first.
* The window between creating a submission and publishing it, in which a crash of the server leaves a queued record without a message. Such a submission was never published.
* The HTTP status check and the error body of a refused streaming request.
* Running out of memory: a whole-body decoder that never returns may be stopped by it when its cycle appends bytes. Lemmas that compare a decoder with the loop ask for bodies shorter than 2^64 - 4 bytes.
* `feed_sse_data` for diagnoses: it is the same loop as `feed_chat_sse_data` with another result type.
* Exceptions thrown by the event callback itself.
* The endpoint in the text of the pool's exception: the reason of a reply stands for the whole `host:port => reason`.
* Deletion of a problem. It is refused while the problem stands in an assignment, and takes only submissions that no leaderboard counts.
* Submission ids with gaps: the id of a submission is its position plus one.
* `username_snapshot` and `updated_at` columns, test-case rows, title and display order of columns: copied, never computed with.
* An unreachable Redis, in which writes to the sorted set vanish; its expiry; and the race between two `zadd` calls after their commits. Coherence of the cache is assumed only where a lemma says so.
* Validation of assignment texts, aliases and display orders: easy members.
* The text form of the poll parameter `after` and the removal of finished jobs from the job table.
* The second pass of the bracket program over the flipped string, which is the same object on other input, the pairing of both counts, and all claims about hash collisions.
* The leaderboard tables are a class only in `SubmissionStore`; the lemmas speak of them as values, since the real ones live in the database.
* The submitting request is modelled by steps on values, not by a class: its only state is the record it builds.
* Authentication, pages, rendering, the Go monitor, retrieval and prompts.
