# Jetmon, verified

Jetmon watches a large number of web sites. A master process reads sites from a bucketed database table
and deals them out to worker processes. A worker keeps a window of HTTP checks in flight and judges each
result. A site that fails goes back to the master and is checked again after a pause; when it has failed
often enough, the master asks remote verifliers, and enough offline replies raise a down notification.
A veriflier schedules the checks it is asked for on a bounded pool of runners and sends each Jetmon
server its results in batches.

This project models that pipeline and proves what it is for:

- the veriflier's scheduler keeps exact accounts over every interleaving, never idles a slot while a
  check waits, serves those who wait in the order of arrival, drains, and answers every request it takes in,
  to its own server, once and in finishing order; it takes a request in exactly when no check with the same key is listed, and a server gets all its
  answers exactly when none of its requests is refused;
- the master never lets a worker idle while work waits, sends work only in good payloads and only to
  workers that are alive and not halted, and loses no site between its queues;
- a worker's window is exact and as wide as it was opened, less the callbacks that found nothing to start; no
  worker stalls, an idle one has asked for work, and none exits while a site on its list is unprocessed; what
  its exit does lose is known exactly: the figures it has not reported, and orders that find it gone;
- a confirmed down notification means what it should, over whole runs of master, workers and messages
  that overtake each other; and it is raised if and only if enough offline replies have arrived;
- what is announced on a worker's word is true of a check of that run, and every check that changes what is
  known of a site is announced once;
- over every run of the whole system each fetched row is in exactly one place, or settled, or lost with a
  process; the moves of a run are bounded; and with a full staff, which the master's spawn rule provides,
  a run comes to rest only with everything settled or lost, as long as no pid is used again too early;
- the event-driven HTTP checker makes no request that the recursive one does not make; where its reads show
  whole heads it makes the same, and the verdicts agree exactly under a stated condition;
- bucket rounds partition the bucket range; merged statistics are the direct aggregation of all results
  whose reports arrived, and what a recycling worker takes with it is known exactly;
- URL splitting, its round trip, and the chunked send.

## How it is built

Each part that changes its state step by step has two files. One holds the steps as functions on a state
value, the invariants, and the theorems over all runs (`Scheduler`, `Master`, `Worker`, `Buckets`,
`Redirects`, `HostUrl`, `Statistics`). The other holds a class with the source's variables and loops,
every method proved to do exactly the matching step (`Controller.CheckController`,
`MasterObject.MasterProcess`, `WorkerObject.WorkerProcess`, `Buckets.BucketCursor`,
`HttpChecker.RecursiveChecker`, `HttpChecker.EventChecker`, `StatisticsObject.WorkerStats`,
`StatisticsObject.MasterStats`). `Dispatcher`, `Confirmation` and `Rounds` prove the master's theorems;
`Pipeline` puts master, workers and messages together; `Conservation` and `Progress` prove where every row
goes and that it gets there, and `Staffing` that there is a worker to take it. `Fairness`, `Window`,
`Assignment`, `Ledger` and `Announcements` say what single steps do in terms of what can be seen from outside
(positions, counts, times, codes), and lift that to runs.

| file | module | content |
|---|---|---|
| `Seqs.dfy` | `Seqs` | sums, bags, reversal and removal on sequences |
| `Scheduler.dfy`, `Fairness.dfy`, `CheckController.dfy` | `Scheduler`, `Fairness`, `Controller` | the veriflier's scheduler |
| `Sites.dfy` | `Sites` | the records that master and workers exchange |
| `Worker.dfy`, `Window.dfy`, `WorkerProcess.dfy` | `Worker`, `Window`, `WorkerObject` | the worker's queue engine |
| `Buckets.dfy`, `Rounds.dfy` | `Buckets`, `Rounds` | the bucket cursor and the rounds it makes |
| `Master.dfy`, `MasterProcess.dfy` | `Master`, `MasterObject` | the master's steps and variables |
| `Dispatcher.dfy`, `Assignment.dfy`, `Confirmation.dfy`, `Ledger.dfy` | the same names | dispatching and veriflier bookkeeping |
| `Pipeline.dfy`, `Announcements.dfy`, `Conservation.dfy`, `Progress.dfy`, `Staffing.dfy` | the same names | the whole system |
| `HostUrl.dfy`, `Redirects.dfy`, `HttpChecker.dfy`, `SendBytes.dfy` | the same names | the two HTTP checkers |
| `Statistics.dfy`, `StatisticsProcess.dfy` | `Statistics`, `StatisticsObject` | check statistics |

## Conventions

- A ghost or plain field named `pending`, `outstanding`, `timer`, `queries`, `timers`, `orders` or `mail`
  holds what is under way outside a handler: queued signals, callbacks, timers, messages. Handlers are the
  atomic steps; events come in any order that these fields allow.
- Histories (`accepted`, `finished`, `delivered`, `queued`, `started`, `pushed`, `cut`, `rows`, `out`,
  `tickets`, `early`, `origin`, `at`, `flushed`, `lost`) are never read by a step's decisions.
- The clock is a parameter of a handler; `Pipeline` makes it monotone. Configuration is constant in a run.
- The network is a parameter: `Redirects.World` answers request number k to a target, `SendBytes.Send`
  is told what the socket takes.
- A message with several replies is a series of replies.

## Properties that hold only under a condition

- A burst of checks can overrun the scheduler's caps, because queued starts are not counted when checks
  are added. `Scheduler.BurstOverrunsCap` is an instance. `Scheduler.BurstWithinCapsIff` gives the exact
  condition for one state, running plus queued checks fit the capacity, and `Scheduler.CapsSafeIff` for
  whole runs: the caps are safe at every moment if and only if every addition leaves that so.
  `Scheduler.ImmediateRunsWithinCaps` shows that immediate delivery respects the caps.
- A result that names another runner than the check's own is only logged. `Scheduler.FinishAccountedIff`:
  the accounts survive if and only if the runner is the right one. No runner of the program sends the
  failing case: a check thread always reports the check's own `thread_index`
  (veriflier/source/check_thread.cpp:29).
- A server that asks about a key that is listed already is refused and gets no answer:
  `Scheduler.SecondServerUnanswered` is an instance, `Scheduler.TakenIff` the condition for one request and
  `Scheduler.AnsweredIffNothingRefused` the one for a run.
- The event-driven checker acts on one read, the recursive one reads to the end. A read that stops before
  the Location turns a redirect to a host that is down into an up site (`Redirects.ReadBeforeLocation`); one
  that stops inside the status line turns an up site into a down one (`Redirects.ReadBeforeStatus`).
  `Redirects.CheckersAgree` therefore speaks of what the decisive reads show: whatever that is, the requests
  made up to the signal are the first of the recursive checker's. The rest holds under the named assumption
  `Redirects.WholeHeads`, that on the way every decisive read shows the whole head.
- Even then the two judge a redirect with an unreadable Location differently, such as a 304 response without
  one (`Redirects.VerdictsDiffer`). `Redirects.CheckersAgree`: with whole heads the requests are the same, and
  the verdicts agree if and only if no such redirect is to be followed (or no time was measured).
- A worker given an empty payload, or a window of no checks, stalls. `Worker.GetsGoingIff` gives the exact
  condition; `Dispatcher.PayloadsGood` and `Pipeline.NoWorkerStalls` show that the master meets it.
- The parts of a URL do not always come back. A query or fragment that follows an explicit port directly is
  cut off with the port, up to the first '/' in it: "http://a:81?next=/home" is split into host "a", port 81
  and directory "/home" (`HostUrl.QueryAfterPortIsLost`). And schemes are cut out wherever they stand:
  "http://a/?u=https://b" is split into host "a", directory "/?u=b", port 443, to be checked over TLS
  (`HostUrl.EmbeddedSchemeCounts`). `HostUrl.ParseOfPrint` gives the exact condition, for any text behind the
  host: the parts come back if and only if there is no port, or nothing follows it, or a path does; and what
  follows the host does not hold "https://" in a plain URL, or "http://" in a TLS one.
- Work that is queued needs a worker that may be given it. `MasterObject.MasterProcess.EnsureWorkerCount`
  supplies missing workers, and `Staffing.StaffedRestMeansSettled` shows that a full staff (none missing,
  every process alive) is enough, unless a pid is used again while a stop_work of its former process is on
  its way. Then that message halts the new process, which never asked to retire (`Staffing.StaleStop`).
  `Staffing.StrandedIff`: with nothing else under way, what is queued stays queued if and only if no worker
  alive is free to be given work.
- A reply goes to the first entry for its site. `Ledger.ConfirmedMeansDown`: an entry is announced as down if
  and only if enough offline replies arrive while it is the first one.
- A worker's window does not stay full. Each callback starts at most one check, so one that finds nothing left
  to start narrows the window until the whole list is done, even if sites are appended in the meantime.
  `Window.WindowWidth` gives the exact width; `Window.FullUntilEnd`: it is numToProcess, for a list of at least
  so many, if and only if no callback has found the list at its end.
- A relative Location keeps the host but neither port nor scheme: a site on TLS that redirects to "/login" is
  followed to port 80 without TLS (`HttpChecker.RelativeLosesTls`, in general `HttpChecker.RelativeTarget`);
  and one that starts with a name, such as "login.html", is taken for a host (`HttpChecker.BareTarget`).
- Figures of checks are lost when a worker exits: the callback that makes it recycle never comes to its
  statistics, and nothing sends what was gathered since the last report. `Statistics.NothingLostIff` gives
  the exact condition, `Statistics.RecycleLosesFigures` what a routine recycle loses.
- Sites are lost with a process: `Conservation.EveryRowAccounted` counts them. A worker's own exit loses
  none of its list; an order that finds the process gone is lost.
- A packet is sent completely only if it fits five buffers: `SendBytes.FitsIff`.

Where the comments of the source and its code differ, the model follows the code: the comment in
`maybeEndRound` (lib/jetmon.js:299) says that the round has ended when all workers are free, but workers
ask for work while their last callbacks are still pending; and the one on `get_work_dataset`
(lib/jetmon.js:581) promises DATASET_SIZE items for an invalid size, where the code gives at most what is
queued.

## Model

| member | source | states |
|---|---|---|
| `Scheduler.Select` | veriflier/source/check_controller.cpp:113-123 | the first least-loaded runner below the cap is picked, and runner 0 when none is below it |
| `Scheduler.InitialAccounted` | veriflier/source/check_controller.cpp:9-31 | a new controller's accounts are right |
| `Scheduler.AddCheckAccounted` | veriflier/source/check_controller.cpp:125-136 | adding a check keeps keys distinct, loads and total exact, queued signals exactly the pre-assigned checks, and no check waiting while a slot is free |
| `Scheduler.AddChecksAccounted` | veriflier/source/check_controller.cpp:138-144 | so does adding a list of checks |
| `Scheduler.DeliverAccounted` | veriflier/source/check_controller.cpp:105-111 | a queued start signal refers to a listed check, and starting it keeps all accounts |
| `Scheduler.FinishAccounted` | veriflier/source/check_controller.cpp:44-94 | a result from the check's own runner, or for an unknown check, keeps all accounts and work conservation |
| `Scheduler.FinishAccountedIff` | veriflier/source/check_controller.cpp:55-58 | a result for a listed check keeps the accounts if and only if it names the check's own runner |
| `Scheduler.Run` | veriflier/source/check_controller.cpp:44-144 | every state of every interleaving of additions, deliveries, results and ticks is accounted for |
| `Scheduler.StepLowersWork` | veriflier/source/check_controller.cpp:44-111 | every delivery and every result lowers the work by exactly one, a tick not at all |
| `Scheduler.SomeMoveEnabled` | veriflier/source/check_controller.cpp:83-92 | with positive capacity a delivery or a result is possible while any check is listed |
| `Scheduler.Drains` | veriflier/source/check_controller.cpp:44-144 | without arrivals the number of moves of a run is bounded by its work, and a run that is stuck has an empty list and zero counters |
| `Scheduler.RoomSomewhere` | veriflier/source/check_controller.cpp:83-83 | if the total is below capacity some runner is below its cap |
| `Fairness.RefillServesFirst` | veriflier/source/check_controller.cpp:83-92 | with room after a result, the check at the least position that has no runner gets the selected one, and no other check changes |
| `Fairness.RefillNothing` | veriflier/source/check_controller.cpp:83-92 | with no room, or nobody waiting, nothing is started |
| `Fairness.AddChecksWaiting` | veriflier/source/check_controller.cpp:125-144 | those of a burst that are not listed and find all slots taken join the waiting checks at the end, in order |
| `Fairness.FinishWaiting` | veriflier/source/check_controller.cpp:44-94 | a result takes up the front of the waiting checks, if anything |
| `Fairness.ServedInOrder` | veriflier/source/check_controller.cpp:44-144 | in every run those who waited and those who had to wait since, in order of arrival, are those taken up, in order of service, followed by those who still wait |
| `Fairness.NoOvertaking` | veriflier/source/check_controller.cpp:83-92 | in every run, if a waiting check is taken up, so is every one that waited before it |
| `Fairness.DrainedServesAll` | veriflier/source/check_controller.cpp:44-144 | a run that ends with an empty list has taken up everyone who had to wait, in order of arrival |
| `Scheduler.StartBalanced` | veriflier/source/check_controller.cpp:105-123 | a start with room goes to a least-loaded runner strictly below its cap, keeps every cap, and does not widen the spread of loads beyond the old one or one |
| `Scheduler.BurstWithinCapsIff` | veriflier/source/check_controller.cpp:131-135 | delivering all queued starts keeps the caps if and only if running plus queued checks fit the capacity |
| `Scheduler.CapsSafeIff` | veriflier/source/check_controller.cpp:83-136 | over a whole run, at no moment would delivering what is queued overrun a cap, if and only if after each addition running plus queued checks fit the capacity; the caps then hold at its end |
| `Scheduler.BurstOverrunsCap` | veriflier/source/check_controller.cpp:131-135 | two checks in one request on a pool with one slot both start |
| `Scheduler.ImmediateRunsWithinCaps` | veriflier/source/check_controller.cpp:83-123 | in runs where every start is delivered at once no runner exceeds its cap |
| `Scheduler.Merge` | veriflier/source/check_controller.cpp:160-178 | a tick appends each server's batch to what that server was sent before |
| `Scheduler.TakenIff` | veriflier/source/check_controller.cpp:125-131 | a request is taken in if and only if no check with its key is listed when it arrives; otherwise nothing changes |
| `Scheduler.StepConserved` | veriflier/source/check_controller.cpp:44-178 | every step keeps, per server: requests taken in are those listed plus those answered, and answers are the server's own results in finishing order |
| `Scheduler.RunConserved` | veriflier/source/check_controller.cpp:44-178 | the same after every run |
| `Scheduler.DrainedRunAnswersEverything` | veriflier/source/check_controller.cpp:160-178 | a run from the start that has drained and ticked has sent every server one answer for each accepted request, in finishing order |
| `Scheduler.RunSplits` | veriflier/source/check_controller.cpp:125-144 | in every run, per server, the requests that arrive are as a multiset those taken in and those refused |
| `Scheduler.AnsweredIffNothingRefused` | veriflier/source/check_controller.cpp:125-178 | a run that has drained and ticked has answered a server everything it asked if and only if none of its requests was refused |
| `Scheduler.SecondServerUnanswered` | veriflier/source/check_controller.cpp:126-129 | two servers ask about the same key in one burst: in no run without further requests does the second get an answer |
| `Controller.CheckController.constructor` | veriflier/source/check_controller.cpp:9-31 | a new controller is in the initial state |
| `Controller.CheckController.HaveCheck` | veriflier/source/check_controller.cpp:96-103 | answers whether a check with this key is listed |
| `Controller.CheckController.SelectRunner` | veriflier/source/check_controller.cpp:113-123 | the scan finds the runner that selection promises |
| `Controller.CheckController.StartChecking` | veriflier/source/check_controller.cpp:105-111 | starting updates total, load and thread index as the step says and nothing else |
| `Controller.CheckController.DeliverStartCheck` | veriflier/source/check_controller.cpp:30-30 | the oldest queued signal starts its check; no signal ever carries a pointer to a deleted check |
| `Controller.CheckController.AddCheck` | veriflier/source/check_controller.cpp:125-136 | in place: a known key is refused, otherwise the check is appended and signalled while the total is below capacity |
| `Controller.CheckController.AddChecks` | veriflier/source/check_controller.cpp:138-144 | the loop adds all checks in order |
| `Controller.CheckController.RetireFound` | veriflier/source/check_controller.cpp:50-82 | the first loop removes the check, adds its result to the batch of the server that asked, and lowers the counters |
| `Controller.CheckController.RefillSlot` | veriflier/source/check_controller.cpp:83-92 | the second loop starts the first waiting check when there is room |
| `Controller.CheckController.FinishedChecking` | veriflier/source/check_controller.cpp:44-94 | the slot does both, and keeps everything valid for the right runner |
| `Controller.CheckController.Ticked` | veriflier/source/check_controller.cpp:160-178 | the batches are handed to sending once and the map starts afresh |
| `Worker.InitialHealthy` | lib/httpcheck.js:28-54 | a new worker is healthy |
| `Worker.CheckServersHealthy` | lib/httpcheck.js:104-118 | the start timer opens a window of at least one and at most NUM_TO_PROCESS checks; the window is exact |
| `Window.TimerOpensWindow` | lib/httpcheck.js:104-118 | the start timer leaves as many checks outstanding as the smaller of NUM_TO_PROCESS and the length of the list, and has started exactly the first sites, in order |
| `Window.ResultMovesWindow` | lib/httpcheck.js:178-183 | a callback starts the site at the pointer in place of its own, and only at the end of the list the window gets narrower by one |
| `Window.WindowWidth` | lib/httpcheck.js:104-183 | in every run after the start timer the checks outstanding are those then, less the callbacks that found nothing to start |
| `Window.FullUntilEnd` | lib/httpcheck.js:104-183 | from the start timer of a list of at least NUM_TO_PROCESS sites on, exactly NUM_TO_PROCESS checks are outstanding, less those callbacks |
| `Window.RecordTable` | lib/httpcheck.js:134-163 | status by result, old status and time; what is put on record is the new status, the time to the nearest millisecond, code, error and moment; nothing else of the site changes |
| `Window.SameJudgement` | lib/httpcheck.js:138-140 | a callback judges a code as the comparison of the checkers does |
| `Window.VerdictTold` | lib/httpcheck.js:165-173 | the report on a verdict is sent in its callback, first |
| `Window.StepAsks` | lib/httpcheck.js:213-217 | a worker asks for work exactly when it raises its flag: first of all, or in a callback at the end of its list; only a payload lowers it |
| `Window.AsksAnswered` | lib/httpcheck.js:213-217 | in every run an idle worker that may get work has asked for it, and asks no more often than payloads come, plus once |
| `Window.StepCounted` | lib/httpcheck.js:110-182 | every step keeps the total equal to the checks started |
| `Window.StepRetires` | lib/httpcheck.js:184-207 | a callback retires a worker, and says so, exactly at the end of its list and when asked to evaporate, over memory or over MAX_CHECKS checks; it exits with the last unprocessed site, with the code for the reason |
| `Window.EvaporateHeeded` | lib/httpcheck.js:307-314 | asked to evaporate, an idle worker exits at once and a running one is bound to |
| `Window.EvaporatedExits` | lib/httpcheck.js:196-207 | in every run, a worker that was asked to evaporate and has nothing to wait for has exited for that reason |
| `Worker.TakeSound` | lib/httpcheck.js:128-152 | a callback takes its own position out of the outstanding ones and leaves one site fewer unprocessed |
| `Worker.AtEndHealthy` | lib/httpcheck.js:183-217 | at the end of the queue the list is let go, or the process exits, only when nothing in it is unprocessed |
| `Worker.ProcessResultHealthy` | lib/httpcheck.js:128-217 | every callback keeps the window exact, leaves a running worker a check outstanding, retires one site, and lets go of the queue only when all else is processed |
| `Worker.QueueAddHealthy` | lib/httpcheck.js:273-284 | a non-empty payload of unprocessed sites keeps the worker healthy |
| `Worker.EvaporateHealthy` | lib/httpcheck.js:307-315 | being asked to evaporate keeps it healthy: it exits only with nothing left |
| `Worker.GetsGoingIff` | lib/httpcheck.js:104-118 | an idle worker given unprocessed sites gets going if and only if there is one and the window is positive |
| `Worker.VerdictTable` | lib/httpcheck.js:138-174 | which report follows from the old status and the result; `Pipeline.RecordFailed` rests on it |
| `Worker.NextHealthy` | lib/httpcheck.js:104-343 | every event keeps a worker healthy |
| `Worker.Run` | lib/httpcheck.js:104-343 | a worker that gets only good payloads is healthy after every run |
| `Worker.StartedInOrder` | lib/httpcheck.js:109-113 | in every run sites are started in the order received, each once; what is not started is what lies right of the pointer; the window is never exceeded |
| `Worker.WorkerDrains` | lib/httpcheck.js:128-217 | without new payloads the number of callbacks to come is known, and a worker waits for nothing only when everything it got was started and processed |
| `WorkerObject.WorkerProcess.CheckServers` | lib/httpcheck.js:104-118 | the loop starts exactly the first window |
| `WorkerObject.WorkerProcess.RecordResult` | lib/httpcheck.js:128-174 | verdict, record and report go into the site at its position and to the master |
| `WorkerObject.WorkerProcess.WaitingFor` | lib/httpcheck.js:189-194 | the loop counts the unprocessed sites |
| `WorkerObject.WorkerProcess.QueueExhausted` | lib/httpcheck.js:183-217 | retiring, exit code, recycling and the request for work, as the step says |
| `WorkerObject.WorkerProcess.ProcessResultsCallback` | lib/httpcheck.js:128-217 | the callback changes the variables and sends the reports of its step |
| `WorkerObject.WorkerProcess.OnQueueAdd` | lib/httpcheck.js:301-306 | a payload is appended or replaces the list, and keeps a healthy worker healthy |
| `WorkerObject.WorkerProcess.OnEvaporate` | lib/httpcheck.js:307-315 | an idle worker exits, a running one remembers |
| `WorkerObject.WorkerProcess.AskForWork` | lib/httpcheck.js:338-343 | the first request for work |
| `Buckets.BucketCursor.GetNextBatch` | lib/database.js:90-128 | issues the current range, moves the cursor on, and says whether it wrapped |
| `Buckets.AdvanceInRound` | lib/database.js:118-127 | query k of a round is followed by query k+1, and the call reports the end exactly at the last one |
| `Buckets.RoundLengthBounds` | lib/database.js:118-121 | a round has the width over the batch size, rounded up, queries |
| `Buckets.Disjoint` | lib/database.js:118-125 | no bucket is in two queries of a round |
| `Buckets.RoundCovers` | lib/database.js:118-125 | the queries of a round cover the buckets from min to max-1, and max exactly when the batch size does not divide the width |
| `Buckets.StartIsFirst` | lib/database.js:13-14 | the cursor starts at the first query of a round |
| `Rounds.InitialInRounds` | lib/database.js:13-14 | the history of queries starts as a sequence of rounds |
| `Rounds.NextRounds` | lib/jetmon.js:245-295 | every event of the master keeps the history of queries a sequence of rounds |
| `Rounds.RunRounds` | lib/jetmon.js:245-295 | in every run the k-th query is the (k mod n)-th of a round and only the last of a round ends it |
| `Rounds.RoundPartition` | lib/jetmon.js:245-295 | each complete round of a run fetches every bucket once, as covered above, and nothing else |
| `MasterObject.MasterProcess.DeleteWorker` | lib/jetmon.js:161-181 | a pid leaves the worker list and both pools |
| `MasterObject.MasterProcess.SpawnWorker` | lib/jetmon.js:155-158 | a reused pid is cleared from all lists before it joins the workers |
| `MasterObject.MasterProcess.GetWorker` | lib/jetmon.js:183-193 | finds a pid exactly when it is a live worker's |
| `MasterObject.MasterProcess.GetWorkDataset` | lib/jetmon.js:585-598 | cuts a prefix off the queue, of the asked size or, out of range, of a full dataset, as far as there is one |
| `MasterObject.MasterProcess.AssignWorkToWorker` | lib/jetmon.js:607-627 | sends a cut prefix to a live worker that is not halted, and otherwise does nothing |
| `MasterObject.MasterProcess.GetMoreSites` | lib/jetmon.js:245-295 | issues the next query of the round or sets the round timer |
| `MasterObject.MasterProcess.OnSendWork` | lib/jetmon.js:439-478 | a request for work: too many workers, nothing queued, or a payload |
| `MasterObject.MasterProcess.FreeWorkersToWork` | lib/jetmon.js:325-333 | all free workers that are alive ask again, in order |
| `MasterObject.MasterProcess.PushRows` | lib/jetmon.js:284-291 | every row becomes an unprocessed site with an empty history at the end of the queue |
| `MasterObject.MasterProcess.OnRows` | lib/jetmon.js:274-294 | the query's callback |
| `MasterObject.MasterProcess.OnRoundTimer` | lib/jetmon.js:258-263 | the round timer |
| `MasterObject.MasterProcess.OnStopWork` | lib/jetmon.js:427-438 | a live worker becomes halted once and is no longer free |
| `MasterObject.MasterProcess.OnStats` | lib/jetmon.js:538-544 | a worker with less than a window left is topped up |
| `MasterObject.MasterProcess.AddServerToLocalRetries` | lib/jetmon.js:565-577 | a site joins the retries, unprocessed, unless it is among them |
| `MasterObject.MasterProcess.HostCheckRequest` | lib/jetmon.js:629-643 | a new entry with zero confirmations joins the veriflier queue |
| `MasterObject.MasterProcess.OnRecheck` | lib/jetmon.js:479-486 | the number of local checks decides which |
| `MasterObject.MasterProcess.OnStatusChange` | lib/jetmon.js:412-426 | the reported site is announced |
| `MasterObject.MasterProcess.OnStillDown` | lib/jetmon.js:409-426 | it is announced as confirmed down |
| `MasterObject.MasterProcess.WorkerMsgCallback` | lib/jetmon.js:399-486 | the whole switch: each message does what its step says |
| `MasterObject.MasterProcess.CheckHostStatus` | lib/jetmon.js:335-373 | a reply is booked on the first entry for its site, and an offline one at or over the limit raises a notification |
| `MasterObject.MasterProcess.SortOutEntries` | lib/jetmon.js:752-773 | the backward loop marks and collects new entries and splices out expired ones |
| `MasterObject.MasterProcess.SendToPeers` | lib/jetmon.js:775-790 | the stride loop sends every batch to every peer and empties the list, for every length and batch size |
| `MasterObject.MasterProcess.Retry` | lib/jetmon.js:795-819 | one due retry goes to the first free worker alive, or to the queue |
| `MasterObject.MasterProcess.DispatchDue` | lib/jetmon.js:792-819 | the backward loop dispatches all due retries as the step says |
| `MasterObject.MasterProcess.ProcessQueuedRetries` | lib/jetmon.js:748-822 | the five-second tick as a whole |
| `Dispatcher.DispatchConserves` | lib/jetmon.js:795-819 | not-due retries stay in order; as a multiset the retries are those left, those handed out and those queued |
| `Dispatcher.DispatchWorkers` | lib/jetmon.js:798-811 | hand-outs carry one site each to different workers, free and alive before and not free after; a retry is queued only when no living free worker is left |
| `Dispatcher.RedistributeKeeps` | lib/jetmon.js:325-333 | handing out work to the free workers keeps pools, queue history and payloads sound |
| `Dispatcher.TickKeeps` | lib/jetmon.js:748-822 | the tick leaves no free worker idle while the queue has work, and keeps the rest |
| `Dispatcher.InitialInv` | lib/jetmon.js:70-87 | the master starts with its invariant true |
| `Dispatcher.NextKeeps` | lib/jetmon.js:161-822 | every event keeps: free or queue empty, pools duplicate-free and disjoint, halted pids alive, at most one fetch in flight, pushes equal to payloads cut plus the queue; work goes only in good payloads to live workers not halted |
| `Dispatcher.Run` | lib/jetmon.js:161-822 | that invariant after every run |
| `Dispatcher.PayloadsGood` | lib/jetmon.js:585-627 | all payloads of a run are non-empty and hold only unprocessed sites |
| `Dispatcher.NoWorkAfterStop` | lib/jetmon.js:427-438 | after stop_work, and after its exit, a pid gets no work until it is used again |
| `Assignment.AssignsPortion` | lib/jetmon.js:585-627 | a live worker that is not halted gets, off the front of the queue, exactly the number asked for if that is from 1 to DATASET_SIZE, otherwise DATASET_SIZE, or all there is |
| `Assignment.AssignsNothing` | lib/jetmon.js:607-627 | nobody else gets anything |
| `Assignment.SurplusEvaporates` | lib/jetmon.js:447-456 | a surplus worker that asks is told once to evaporate, and gets no work |
| `Assignment.AskerServed` | lib/jetmon.js:472-477 | a worker that asks while sites are queued gets a full payload, or all there is |
| `Assignment.AskerNoted` | lib/jetmon.js:458-471 | one that asks while nothing is queued is noted as free unless halted, and a fetch is under way |
| `Assignment.FreeWorkersAwaited` | lib/jetmon.js:245-295 | after every run, while a worker is free exactly one query or round timer is under way |
| `Assignment.ToppedUp` | lib/jetmon.js:538-544 | a worker with less than NUM_TO_PROCESS sites left gets what is missing to DATASET_SIZE, or a full payload if nothing is; one with more gets nothing |
| `Assignment.TickTakesDue` | lib/jetmon.js:793-800 | after a tick exactly the retries wait whose last check is less than TIME_BETWEEN_CHECKS ago |
| `Assignment.RetriesGoOutBackwards` | lib/jetmon.js:793-822 | the due retries go out from the last to the first, one each to the living free workers in their order, and then to the end of the queue |
| `Assignment.SentAsQueued` | lib/jetmon.js:754-773 | what a tick sends are the entries not sent before, in order, unchanged but for the marks of sending |
| `Assignment.RowsQueued` | lib/jetmon.js:245-295 | every fetched row joins the queue in order, as an unprocessed site with the row's status and no history |
| `Assignment.RecheckGoesOn` | lib/jetmon.js:479-486 | a recheck with less than NUM_OF_CHECKS checks waits, unless one for its site does; with so many it becomes an unsent entry with no confirmation |
| `Assignment.RunOnePerSite` | lib/jetmon.js:565-577 | in every run at most one retry waits for a site |
| `Assignment.PidMoves` | lib/jetmon.js:111-193 | a new pid is a worker and in no pool, one told to stop is halted and not free, one that is gone is nowhere; other pids stay where they are |
| `Confirmation.BatchesAreTheQueue` | lib/jetmon.js:777-779 | the batches are the new entries in order of queueing, cut from the front, each written backwards |
| `Confirmation.BatchCount` | lib/jetmon.js:777-779 | there are as many batches as the length over the batch size, rounded up |
| `Confirmation.TickPosts` | lib/jetmon.js:752-790 | a tick sends each new entry to each peer exactly once and no other entry |
| `Confirmation.DroppedIff` | lib/jetmon.js:759-772 | an entry is dropped if and only if it was sent on an earlier tick and is answered or timed out |
| `Confirmation.KeptAscending` | lib/jetmon.js:754-773 | the survivors keep their order |
| `Confirmation.NoteSound` | lib/jetmon.js:340-370 | one reply keeps an entry's confirmations, outstanding requests and notifications right |
| `Confirmation.NextBooks` | lib/jetmon.js:335-373 | every event keeps the books of all entries |
| `Confirmation.InitialBooks` | lib/jetmon.js:70-87 | the books are right at the start |
| `Confirmation.RunBooks` | lib/jetmon.js:335-373 | over any interleaving: confirmations equal offline replies on record, outstanding equals peers minus replies since sending, and down events number max(0, confirmations - limit + 1); each entry is sent to each peer once |
| `Confirmation.DroppedMeans` | lib/jetmon.js:759-772 | a dropped entry was sent to every peer once and got all replies or timed out |
| `Ledger.StrangeReply` | lib/jetmon.js:335-339 | a reply for a site without an entry changes nothing |
| `Ledger.ReplyTaken` | lib/jetmon.js:335-373 | in any state a reply goes on record with the first entry for its site, with the time, and lowers what is outstanding; an offline one is counted, and from PEER_OFFLINE_LIMIT on marks the entry as down and raises one notification; nothing else changes |
| `Ledger.RepliesOnRecord` | lib/jetmon.js:335-373 | in every run an entry has on record the report that queued it and exactly the replies that arrived while it was first for its site, and the time of the last |
| `Ledger.NotifiedIff` | lib/jetmon.js:350-368 | in every run, for entries dropped since as well, there is one down notification for every such offline reply from the limit on; so there is one if and only if as many as the limit have arrived |
| `Ledger.MasterOfRun` | lib/jetmon.js:375-546 | a run of the system, seen from the master, is a run of the master |
| `Ledger.ConfirmedMeansDown` | lib/jetmon.js:350-368 | in every run of the system a site handed to the verifliers is announced as down if and only if at least PEER_OFFLINE_LIMIT offline replies have arrived while its entry was first |
| `Pipeline.RecordFailed` | lib/httpcheck.js:134-173 | a recheck is reported exactly for a failed check of a site fetched as running, and carries the old local history and one more failure |
| `Pipeline.MasterStepOk` | lib/jetmon.js:335-486 | every event of the master keeps what is known of queued sites, retries, entries and notifications |
| `Pipeline.WorkerStepOk` | lib/httpcheck.js:128-217 | every event of a worker keeps what is known of its sites and reports |
| `Pipeline.BootOk` | lib/jetmon.js:70-87 | the system starts with its invariant true |
| `Pipeline.NextOk` | lib/jetmon.js:161-822 | every action of the system, messages in any order, keeps the whole invariant |
| `Pipeline.DownMeansConfirmed` | lib/jetmon.js:350-368 | in every run a down notification is for a site fetched as running, with exactly NUM_OF_CHECKS local failures, each at least TIME_BETWEEN_CHECKS after the one before, and at least PEER_OFFLINE_LIMIT offline replies |
| `Pipeline.NoWorkerStalls` | lib/httpcheck.js:104-217 | in every run of the system a running worker past its start timer has a check outstanding, at most NUM_TO_PROCESS, and starts sites in the order received |
| `Announcements.StatusChangeAnnounced` | lib/jetmon.js:412-426 | a change of status is announced once, as reported, and nothing else happens |
| `Announcements.StillDownAnnounced` | lib/jetmon.js:409-426 | a site still down is announced once, as confirmed down and otherwise as reported |
| `Announcements.AnnouncementsTrue` | lib/httpcheck.js:134-173 | in every run such an announcement is for a fetched site and true of a check of the run: running after an answer in time with a code below 400 and not 0, though fetched as not running; or confirmed down after a failed check, at least TIME_BETWEEN_NOTICES after it went down; never down |
| `Announcements.AnnouncedOnce` | lib/jetmon.js:409-426 | in every run a site has been announced, or is in a report on its way, exactly as often as a check of it had such a result |
| `Conservation.MasterConserves` | lib/jetmon.js:161-822 | every event of the master: what it holds of a site before and is brought is what it holds afterwards, sends in payloads, and is done with |
| `Conservation.ResultPending` | lib/httpcheck.js:128-217 | a callback takes exactly its own site out of what the worker has still to check |
| `Conservation.ActionConserves` | lib/jetmon.js:161-822 | every action of the system moves sites from place to place: held afterwards, settled and lost is what was held before and fetched |
| `Conservation.EveryRowAccounted` | lib/jetmon.js:161-822 | in every run each fetched row is held in exactly one place, or settled, or lost with a process |
| `Progress.NextSpent` | lib/jetmon.js:161-822 | no event raises the rank of what the master holds beyond what it brings, and every site it moves lowers it |
| `Progress.ActionRank` | lib/jetmon.js:161-822 | no action but a fetch raises the system's rank, and every move of a site lowers it |
| `Progress.MovesBounded` | lib/jetmon.js:161-822 | a run makes no more moves than the rank it starts with and fetches |
| `Progress.SomethingMoves` | lib/jetmon.js:538-544 | while a site is held anywhere some move is possible, at the latest when time has passed, provided a worker that may be given work exists while the queue holds some |
| `Progress.RestMeansSettled` | lib/jetmon.js:161-822 | a run that has come to rest, with a worker that may be given work if any is queued, has settled every row it fetched, except what was lost with a process |
| `MasterObject.MasterProcess.EnsureWorkerCount` | lib/jetmon.js:830-858 | the loop spawns the missing workers; with new pids none is missing afterwards |
| `Staffing.RunStops` | lib/jetmon.js:427-438 | in every run in which no pid is used again too early, only workers that retire are halted, and a retiring worker that has not exited has a site to check |
| `Staffing.SomeoneServes` | lib/jetmon.js:830-858 | with a full staff of at least one worker, and none with anything to do, there is one that may be given work |
| `Staffing.StaffedRestMeansSettled` | lib/jetmon.js:161-858 | a run in which no pid is used again too early, and that has come to rest with a full staff, has settled every row it fetched, except what was lost with a process |
| `Staffing.StaleStop` | lib/jetmon.js:427-438 | a failing case: a stop_work still on its way when its pid is used again halts the new process |
| `Staffing.StrandedIff` | lib/jetmon.js:427-544 | with nothing else under way, queued work is at rest if and only if no living worker may be given work |
| `HostUrl.ParsedIsClean` | src/http_checker.cpp:159-195 | for every input the host has no '/', '?' or '#' and the directory starts with '/' |
| `HostUrl.NumberOfDecimal` | src/http_checker.cpp:176-176 | reading printed digits gives the number back |
| `HostUrl.ParsedAs` | src/http_checker.cpp:159-195 | what parsing makes of any scheme, host without delimiters, optional port and whatever follows: the first other scheme in it is cut out and an "https://" turns TLS on; behind a port everything up to the first '/' is cut off |
| `HostUrl.ParseOfPrint` | src/http_checker.cpp:159-195 | printing the parts and parsing gives them back if and only if there is no port, or nothing follows it, or a path does; and what follows holds no "https://" (in a plain URL) or "http://" (in a TLS one) |
| `HostUrl.EmbeddedSchemeCounts` | src/http_checker.cpp:160-168 | a failing input: "http://a/?u=https://b" loses the scheme in its query and is to be checked over TLS on port 443 |
| `HostUrl.ParsedBare` | src/http_checker.cpp:159-195 | the same for a text without a scheme in front: the first "http://" in what follows is cut out and then the first "https://" |
| `HostUrl.QueryAfterPortIsLost` | src/http_checker.cpp:176-179 | a failing input: the path in the query of "http://a:81?next=/home" becomes the directory |
| `HttpChecker.RecursiveChecker.ParseHostValues` | src/http_checker.cpp:159-195 | in place: schemes, port and directory are cut off as above |
| `HttpChecker.RecursiveChecker.SetRedirectHostValues` | src/http_checker.cpp:138-151 | the target of a Location; a relative one keeps the host |
| `HttpChecker.AbsoluteTarget` | src/http_checker.cpp:138-151 | a Location that is a whole URL leads to its own host, port, directory and scheme |
| `HttpChecker.RelativeTarget` | src/http_checker.cpp:138-151 | one that starts with '/', '?' or '#' keeps the host and leads to port 80 without TLS, unless it holds "https://" |
| `HttpChecker.BareTarget` | src/http_checker.cpp:138-151 | any other is taken to start with a host |
| `HttpChecker.RelativeLosesTls` | src/http_checker.cpp:138-151 | a failing input: a site on TLS that redirects to "/login" is followed to port 80 without TLS |
| `HttpChecker.MovedToADeadHost` | src/http_checker.cpp:83-110 | a 301 to a host that refuses connections makes two requests and ends with code 0 and error 996 |
| `HttpChecker.RecursiveChecker.SetHostResponse` | src/http_checker.cpp:58-120 | the recursion through the object's fields gives the code, error and requests of the specification |
| `HttpChecker.RecursiveChecker.Check` | src/http_checker.cpp:37-56 | the whole check of a URL |
| `HttpChecker.EventChecker.ProcessResponse` | veriflier/source/http_checker.cpp:41-59 | the next hop, or the end with the code kept |
| `HttpChecker.EventChecker.OnReadyRead` | veriflier/source/http_checker.cpp:192-206 | only the first data of a response is read |
| `HttpChecker.EventChecker.OnConnectionError` | veriflier/source/http_checker.cpp:187-190 | a socket error ends the check |
| `HttpChecker.EventChecker.OnTimedOut` | veriflier/source/http_checker.cpp:216-223 | so does the timer |
| `HttpChecker.EventChecker.FinishRequest` | veriflier/source/http_checker.cpp:225-230 | the end is signalled once |
| `Redirects.Follow` | src/http_checker.cpp:58-120 | the recursive checker makes at least one and at most MAX_REDIRECTS+1 requests, the first to the URL's own target |
| `Redirects.FollowsRedirects` | src/http_checker.cpp:83-110 | a code from 301 to 399 with a Location, while hops are left, leads to the resolved target, and the result is that of the run from there |
| `Redirects.EndsWithCode` | src/http_checker.cpp:83-91 | any other code ends the run after this request, with that code, and so does a redirect when no hop is left |
| `Redirects.EndsWithError` | src/http_checker.cpp:46-99 | no connection, silence, no status line and no Location end it with the errors 995 or 996, 998, 999 and 997 |
| `Redirects.HeadFollowed` | veriflier/source/http_checker.cpp:41-59 | one read of a code from 301 to 399 with a Location, while hops are left, leads to the resolved target |
| `Redirects.HeadEnds` | veriflier/source/http_checker.cpp:41-59 | any other code, no hop or no Location ends the check, which reports the code |
| `Redirects.OtherSignals` | veriflier/source/http_checker.cpp:187-230 | no data, and data after the code, change nothing; what is no status line ends the check with -1, an error or the timer with the code so far |
| `Redirects.UpCodes` | veriflier/source/check_thread.cpp:16-21 | with a time, the veriflier counts exactly 1 to 399 as up, the worker negative codes as well |
| `Redirects.SignalsOnce` | veriflier/source/http_checker.cpp:225-230 | whatever arrives in whatever order, the check ends with one signal whose code stays |
| `Redirects.EventsFollowOutlook` | veriflier/source/http_checker.cpp:192-206 | for whatever the decisive reads show, however events without data are mixed in, and whether a failed request shows as a socket error or as a timeout, the event-driven checker ends with the foreseen code after the foreseen requests |
| `Redirects.RequestsUpToSignal` | veriflier/source/http_checker.cpp:41-59 | up to its signal it makes exactly those requests |
| `Redirects.RequestsNeverMore` | veriflier/source/http_checker.cpp:192-206 | if the decisive reads show less than the responses hold, the requests are the first of those the recursive checker makes |
| `Redirects.WholeHeadsSeen` | src/http_checker.cpp:216-262 | if on the way they show whole heads, all that follows is the same as if whole responses were read |
| `Redirects.SameRequests` | src/http_checker.cpp:83-110 | both checkers make the same requests |
| `Redirects.SameVerdictIff` | veriflier/source/check_thread.cpp:16-21 | the verdicts agree if and only if no redirect with an unreadable Location is to be followed |
| `Redirects.VerdictsDiffer` | src/http_checker.cpp:92-98 | a failing input: a 304 response without a Location is down for the worker and up for the veriflier |
| `Redirects.ReadBeforeLocation` | veriflier/source/http_checker.cpp:192-206 | a failing input: a 302 to a host that is down, first read up to the Location, is down for the worker and up for the veriflier |
| `Redirects.ReadBeforeStatus` | veriflier/source/http_checker.cpp:192-206 | a failing input: a 200 whose first read stops inside the status line is up for the worker and down for the veriflier |
| `Redirects.CheckersAgree` | src/http_checker.cpp:58-120 | both together, for every world, every part of it that the decisive reads show, and every event order that allows: one signal, and requests up to it that are the first of the recursive checker's, at most MAX_REDIRECTS+1; if those reads show whole heads, the same requests and equal verdicts exactly under the condition of `SameVerdictIff` |
| `SendBytes.ChunksAreThePacket` | src/http_checker.cpp:962-1006 | the chunks concatenate to the packet, each within the buffer |
| `SendBytes.FitsIff` | src/http_checker.cpp:959-959 | five sends are enough if and only if the packet fits five buffers |
| `SendBytes.Send` | src/http_checker.cpp:955-1014 | true if and only if every send takes its whole chunk, five are enough and the time is not up in between; then the chunks went out in order |
| `Statistics.FoldMeans` | lib/httpcheck.js:242-270 | aggregation holds, per status, exact counts per code and error, and the true sum, minimum and maximum |
| `Statistics.MergeFold` | lib/jetmon.js:488-514 | merging two aggregations is aggregating both lists |
| `Statistics.FoldAnyOrder` | lib/httpcheck.js:242-270 | the order of the results does not matter |
| `Statistics.MasterIsDirectFold` | lib/jetmon.js:488-514 | for any split over workers and reports and any order of arrival the master holds the direct aggregation of what arrived since its last flush |
| `Statistics.RunCounts` | lib/httpcheck.js:351-369 | at any moment every result made is in exactly one place: a worker, a report, the master, flushed, or lost with its worker |
| `Statistics.NothingLostIff` | lib/httpcheck.js:196-207 | nothing is lost in a run if and only if no worker exits from a callback or with figures it has not reported |
| `Statistics.AccountIsMeasured` | lib/httpcheck.js:220-270 | in any run, whatever other workers do, a worker's account holds exactly what its own process has measured since its start or its last report |
| `Statistics.RecycleLosesFigures` | lib/httpcheck.js:183-207 | a callback makes a process exit exactly when nothing is unprocessed, nothing is left to start and the worker is to retire; the result at hand and everything that process has measured since its last report are then lost, and otherwise nothing |
| `Statistics.RecycleInstance` | lib/httpcheck.js:196-207 | one check of a worker that recycles in its callback is never counted |
| `StatisticsObject.WorkerStats.Add` | lib/httpcheck.js:242-270 | the callback's branches add one result |
| `StatisticsObject.WorkerStats.Report` | lib/httpcheck.js:351-369 | a report takes all figures and starts afresh |
| `StatisticsObject.AddCounts` | lib/jetmon.js:493-506 | the key loop adds counts key by key |
| `StatisticsObject.MasterStats.OnStats` | lib/jetmon.js:488-514 | the status loop merges a report |
| `StatisticsObject.MasterStats.Flush` | lib/jetmon.js:729-729 | a flush takes all figures and starts afresh |

## Left out

- Sockets, TLS, DNS, epoll, HTTPS servers and clients, MySQL pools, logging, stats files and StatsD transport: I/O, taken as events or parameters.
- JSON encoding, process forking, timers' delays and the clock's source: messages are values, timers pending steps, times parameters.
- Configuration reload: configuration values are constant in a run.
- Recovery of what is lost: no step of the program recovers sites or figures that go with a process. Messages that a process has sent reach the master in the model even when the process has exited since.
- The database error path, whose rollback of the cursor is inexact after a wrap, and the debug-mode restart of the fetch loop.
- Batch sizes larger than the bucket range, and empty ranges.
- `inRound`, `maybeEndRound` and the totals: figures for metrics only; the end of a round does not mean that no check is outstanding.
- The scheduler's `m_checked` and its log lines, which nothing depends on; a check that finishes inside `performCheck`, before `startChecking` returns.
- Several reads of the clock within one handler: the model reads it once.
- Veriflier entries and site records are values in sequences that the class methods reassign: that `sendRetries` and `queuedRetries` share the same objects, and that a worker's `server` variable aliases a list element, is modelled as writing the new record back at its position.
- Site statuses outside down, running and confirmed down, and with them the statistics' 'unknown' group.
- A fork that fails and yields no pid.
- `CheckersAgree`: same requests and the exact verdict condition need the decisive reads to show whole heads, because the event-driven checker does act on a head that is cut short; without that only the requests are compared, and two failing inputs are given.
- That pids are not used again too early is an assumption about the operating system (`Staffing.FreshSpawn`); the program does nothing to ensure it.
- How a Location header is searched for in a response, and status lines whose three characters are not digits, where the two libraries read numbers differently.
- The Qt checker's own URL splitter, which reads a port from text that may include the path: `Redirects` takes the next target of a Location as one parameter for both checkers.
- The range of C's `int`: numbers in URLs are read without overflow.
- Exceptions caught and logged by the C++ and JavaScript handlers.
- `HttpChecker.EventChecker.constructor`: starts with the first connection already under way; the URL splitting before it is the Qt one.
