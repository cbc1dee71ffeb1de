# Verified models of the operator's state machines

Revka's operator supervises agents: it logs their events, guards calls to a sidecar process, retries
operations, serves tasks over the A2A protocol, keeps a journal, and rewrites texts and documents on
the way to a provider or a memory store. This project models the parts of that code whose behaviour is
hard to see from one function body, and proves what they keep over every input or every run.

Code that updates objects or runs loops is modelled by classes and methods whose contracts tie the new
state to a specification; the theorems are lemmas about the specification. Pure code is modelled by
functions. `dafny verify dfyconfig.toml` checks everything.

| file | what it models |
|---|---|
| `Text.dfy` | searching, trimming and ASCII case as Python and Rust do them |
| `SseStream.dfy` | the incremental event-stream splitter; a subset of sections 9.2.5 and 9.2.6 of the WHATWG HTML Living Standard |
| `RunLog.dfy` | the per-agent run log with its ten live indexes, and the loader that rebuilds them |
| `RunLogEvents.dfy` | which row a sidecar event becomes and what it does to the indexes, told from its fields |
| `TaskServer.dfy` | the A2A task server: bounded store, executors queueing on one lock, cancellation; section 6.3 of the A2A Protocol specification v0.3 |
| `CircuitBreaker.dfy` | the circuit breaker and the client calls that drive it |
| `RetryQueue.dfy` | the background retry queue with exponential backoff |
| `Multimodal.dfy`, `Preparation.dfy` | image markers in messages: parsing, composing, preparing a conversation |
| `Identity.dfy` | flattening and deduplicating any JSON value into a list of texts |
| `Ontology.dfy`, `OntologyTables.dfy` | folding free relationship texts onto a vocabulary, and the shipped tables |
| `Casing.dfy` | the same over other scripts: what case mappings must be like |
| `JournalRotation.dfy` | the session journal, its health check and its rotation |
| `TeamEdges.dfy` | team edges gathered over two paths and sorted into one list |
| `Migration.dfy` | importing memory entries under slugs that do not collide |
| `EventBuffers.dfy` | the event consumer's bounded buffers and polling them by position |
| `Reconnect.dfy` | the journal index and reattaching to surviving agents |

## What does not hold

Some promises are false of the code. The code is modelled as it is, and the exact condition is proved.

- The replayed run log shows another status than the live one when no row sets a status
  (`RunLog.StatusAgrees`), and another last message when the cut of a long output reaches the text
  (`RunLog.TrimmedTail`). One tool call with a list for a path makes a log unreadable
  (`RunLog.OnePathStopsTheLoad`). A log opened over an old file is replayed together with the old rows
  (`RunLog.ReplayOverOld`, exact condition in `RunLog.OnlyFreshAgrees`).
- A task id sent again while it is stored, or while an executor by that id is alive, lets a finished
  task start again (`TaskServer.CleanIsExact`). A workspace that cannot be created leaves its task
  working for ever (`TaskServer.LostWorkspaceAbandons`).
- A half-open probe that records no outcome locks the sidecar out until an ungated call records one: a
  probe answered with an error status, cancelled, or never sent because the sidecar cannot be started
  (`CircuitBreaker.ProbeUnlocks`, `CircuitBreaker.LockedOutExactly`).
- Cancelling an operation while it is being retried ends the retry loop (`RetryQueue.CancelThenEnd`);
  replacing it takes the replacement away untried (`RetryQueue.ReplaceThenEnd`). Exactly when is said by
  `RetryQueue.EndLosesAnother`, and for the totals of a run by `RetryQueue.RunsConserve`. Stopping and
  starting the loop during a try repeats it at once and grants it one attempt more
  (`RetryQueue.CutOffIsDueAtOnce`, `RetryQueue.RunsAreTimely`).
- Preparing a conversation can leave more images in it than the limit it was checked against
  (`Preparation.Spliced`, `Preparation.ImagesKept`).
- A rotation that cannot move the live file can still cost a backup (`JournalRotation.UnfinishedLoses`),
  and in the end all of them (`JournalRotation.StuckLosesBackups`).
- The two ways to fetch a team differ when a listing holds a malformed edge (`TeamEdges.PathsAgree`). One
  edge type that is a list or an object loses the whole team (`TeamEdges.OneKindLosesTheTeam`).
- Importing the same memory again imports every entry again whose slug is held by other content, and every
  entry that is not empty where the latest revision cannot be read (`Migration.ImportAgain`, for the first
  run `Migration.RenamesNothing`), although the source removes exact duplicates so that a repeated import
  is deterministic (`src/migration.rs:216`).
- A poller that asks for events by the number it has seen gets nothing more once a buffer has been full
  (`EventBuffers.PollerIsDeaf`, exact condition in `EventBuffers.PollerIsGiven`).
- A reconnect that meets an agent registered meanwhile, and not named by the journal, registers it a
  second time (`Reconnect.DoublesExactly`, `Reconnect.AmidDoublesExactly`), also one whose spawn is still
  waiting for its answer (`Reconnect.WaitingSpawnDoubles`, exact condition in `Reconnect.DoublesForeseen`);
  and a live agent whose id another one has is not registered
  at all (`Reconnect.RegisteredAsThemselves`).

## Model

| member | source | states |
|---|---|---|
| SseStream.Consume | operator-mcp/operator_mcp/session_manager_client.py:406-416 | However the stream is cut into chunks, the events and the leftover buffer are those of the whole text read at once |
| SseStream.Drain | operator-mcp/operator_mcp/session_manager_client.py:436-446 | The inner loop takes every complete record out of the buffer, in order, and leaves the text after the last separator |
| SseStream.EmitRecord | operator-mcp/operator_mcp/session_manager_client.py:409-416 | One event for each `data: ` line that decodes, in line order; other lines give none (what a line gives is said by ReadBack) |
| SseStream.CutAppend | operator-mcp/operator_mcp/session_manager_client.py:406-410 | Text that arrives later can only continue the unfinished record: cutting now and going on equals cutting at the end |
| SseStream.CutIsExact | operator-mcp/operator_mcp/session_manager_client.py:406-410 | Records, separators and leftover rebuild the input exactly; no record and no leftover holds a blank line |
| SseStream.CutIsUnique | operator-mcp/operator_mcp/session_manager_client.py:406-410 | A division of the text is the one the loop finds if and only if it rebuilds the text from pieces without blank lines |
| SseStream.ReadBack | operator-mcp/operator_mcp/session_manager_client.py:406-416 | The records of any writer (payload lines and lines without one, several to a record), cut into chunks at any places, give exactly their payloads that decode, in order; an incomplete tail stays in the buffer |
| SseStream.ReadSidecar | operator-mcp/session-manager/src/index.ts:156-163 | For the stream the sidecar writes, with heartbeats anywhere, the client yields exactly the decoded events in order and nothing is left over |
| RunLog.Log.constructor | operator-mcp/operator_mcp/run_log.py:45-84 | A log holds its header row behind whatever lines a file by its name held, and all ten indexes are what that one row makes them |
| RunLog.Log.Append | operator-mcp/operator_mcp/run_log.py:75-84 | The row reaches the file under the next number; no index but the count changes |
| RunLog.Read | operator-mcp/operator_mcp/run_log.py:86-221 | An event is never written with a usage report that cannot be added up or with an overlong error tail; which row an event becomes is said by RunLogEvents.ReadExactly |
| RunLog.Log.RecordEvent | operator-mcp/operator_mcp/run_log.py:86-221 | Every index still equals its definition over the file; exactly the row of the event is added; it raises exactly for unreadable events and for paths that cannot be stored |
| RunLogEvents.ReadExactly | operator-mcp/operator_mcp/run_log.py:86-221 | Which row an event becomes, by its own fields: it is written as a row if and only if its type, item type and fields say so, missing fields by their defaults; no other type writes anything; it raises if and only if it or its item is no object or its usage cannot be added up |
| RunLogEvents.RowEffect | operator-mcp/operator_mcp/run_log.py:86-221 | What each kind of row does to each of the ten indexes, by the names of the tools, the first path or command among the arguments, and the three usage counts |
| RunLogEvents.Record | operator-mcp/operator_mcp/run_log.py:86-221 | From the fields of an event to the log: the row described is appended and changes the indexes as told, raising if and only if its path cannot be stored; an event that describes none changes nothing |
| RunLogEvents.RecordSent | operator-mcp/operator_mcp/run_log.py:86-221 | Round trip: the event of any row the sidecar can cause, bare or wrapped, appends exactly that row |
| RunLogEvents.RecordMessage | operator-mcp/operator_mcp/run_log.py:125-133 | An assistant message with a text becomes the last message and no other sidecar event changes it |
| RunLogEvents.CutRows | operator-mcp/operator_mcp/run_log.py:231-281 | A subprocess row keeps the last 5000 and 2000 characters of its outputs, a lifecycle row the last 2000 of its error output |
| RunLog.Log.RecordToolCall | operator-mcp/operator_mcp/run_log.py:96-123 | The same for a tool call, including the call whose path raises between two index updates |
| RunLog.Log.RecordPlain | operator-mcp/operator_mcp/run_log.py:125-221 | The same for the events that touch at most one index |
| RunLog.Log.RecordTurnFailed | operator-mcp/operator_mcp/run_log.py:180-198 | The same for a failed turn |
| RunLog.Log.RecordSubprocess | operator-mcp/operator_mcp/run_log.py:223-250 | The same for a subprocess: the file keeps the end of its output, the live object all of it |
| RunLog.Log.RecordLifecycleError | operator-mcp/operator_mcp/run_log.py:252-281 | The same for a lifecycle failure |
| RunLog.Log.RecordPrompt | operator-mcp/operator_mcp/run_log.py:283-289 | The same for a prompt |
| RunLog.IndexesSnoc | operator-mcp/operator_mcp/run_log.py:75-281 | Each index over a longer file is one step from the index over the shorter one |
| RunLog.LoadLogFromDisk | operator-mcp/operator_mcp/run_log.py:413-508 | Loading fails exactly when some row raises; otherwise every index is its definition over the decodable rows |
| RunLog.ReplayRow | operator-mcp/operator_mcp/run_log.py:444-501 | One replayed row changes the indexes by the same step definition as one recorded row |
| RunLog.ListsAgree | operator-mcp/operator_mcp/run_log.py:451-493 | Tool calls, errors and last failing command of the replay are the live ones, apart from the command field added in memory |
| RunLog.StatusAgrees | operator-mcp/operator_mcp/run_log.py:429-508 | Live and replayed status are equal if and only if some row sets a status |
| RunLog.MessageAgrees | operator-mcp/operator_mcp/run_log.py:461-501 | Live and replayed last message come from the same row, one trimmed from the whole output and one from its kept end |
| RunLog.TrimmedTail | operator-mcp/operator_mcp/run_log.py:308-311 | The replayed summary message is always a suffix of the live one, and equal exactly when the kept end still holds what the summary shows |
| RunLog.ReplayRefinesLive | operator-mcp/operator_mcp/run_log.py:413-508 | Main result: the replay of the rows written equals the live object on every index, with the exact conditions for status and last message |
| RunLog.ReplayOverOld | operator-mcp/operator_mcp/run_log.py:413-508 | Replaying old and new rows together: counts and lists add up, the rest is the new rows' where they set it and the old ones' where not |
| RunLog.OnlyFreshAgrees | operator-mcp/operator_mcp/run_log.py:75-84 | A log opened over an old file agrees with its replay if and only if no decodable row was there |
| RunLog.Reload | operator-mcp/operator_mcp/run_log.py:413-508 | Reading the file of a live log succeeds if and only if the old rows load and no row written names a path that cannot be stored, and then agrees with the log if and only if the file held no row before |
| RunLog.OnePathStopsTheLoad | operator-mcp/operator_mcp/run_log.py:347-355 | One tool call whose arguments name a list as path makes the whole log unreadable |
| RunLog.GetFullLog | operator-mcp/operator_mcp/run_log.py:323-339 | Rows from an offset on, at most `limit`; undecodable lines count for the offset and not for the limit, for all integers |
| TaskServer.TaskStore.StoreTask | cloud-agents/coder/a2a_server.py:173-181 | The store afterwards holds the last ids to arrive; a re-sent id keeps its place; an evicted id leaves the registry too |
| TaskServer.TaskStore.FinishTask | cloud-agents/coder/a2a_server.py:184-195 | A stored task that is not over gets state and artifact; a task that is over or gone is untouched |
| TaskServer.TaskStore.MessageSend | cloud-agents/coder/a2a_server.py:322-339 | A message without text changes nothing; any other is one send step of the protocol |
| TaskServer.TaskStore.TasksCancel | cloud-agents/coder/a2a_server.py:348-358 | A known id takes the cancel step, an unknown one changes nothing |
| TaskServer.TaskStore.ExecutorStart | cloud-agents/coder/a2a_server.py:237-249 | Getting the lock and going up to the agent call is the start step |
| TaskServer.TaskStore.ExecutorFinish | cloud-agents/coder/a2a_server.py:251-278 | Each way the agent call ends is the finish step, whose outcome FinishByOutcome states |
| TaskServer.StepBounded | cloud-agents/coder/a2a_server.py:173-181 | Every step, re-sent ids included, keeps order free of duplicates, equal to the keys of the store, within its size, and the registry inside the store |
| TaskServer.StoreIsLastEntered | cloud-agents/coder/a2a_server.py:173-181 | Over every run the store holds exactly the last MAX_TASKS ids that entered it, in order |
| TaskServer.EmptyIsSound | cloud-agents/coder/a2a_server.py:68-73 | The empty server satisfies the invariant |
| TaskServer.StepSound | cloud-agents/coder/a2a_server.py:173-278 | Every step with a safe send, lost workspaces included, keeps the invariant (no waiting executor can throw a task back, no two live executors go by one id, every stored task that is not over is registered under the executor that waits for it or holds the lock for it, the registry never names another task's executor) and moves every stored task only forward |
| TaskServer.SafeRunsAreSound | cloud-agents/coder/a2a_server.py:173-278 | The same over whole runs of interleaved requests and executors, whichever workspaces cannot be created |
| TaskServer.TasksOnlyMoveForward | cloud-agents/coder/a2a_server.py:184-195 | Over every run with safe sends, whichever workspaces cannot be created, a stored task goes submitted, working, over; once over, also by cancel, it never changes again |
| TaskServer.FinishByOutcome | cloud-agents/coder/a2a_server.py:251-278 | A task that is not over ends by the way its agent call ends: completed with the answer, failed with the error for a time-out or a crash, canceled for a stop |
| TaskServer.TasksEndAsCalled | cloud-agents/coder/a2a_server.py:237-358 | Over every run with safe sends from the start: a stored task is completed if and only if an executor of its own ended with an answer before anything else ended it, and the answer is its artifact; failed if and only if the call timed out or crashed or the text was refused; canceled if and only if it was canceled or the call stopped; otherwise not over |
| TaskServer.WorkerOrAbandoned | cloud-agents/coder/a2a_server.py:237-249 | A working task is the lock holder's if and only if it is not abandoned |
| TaskServer.OneWorker | cloud-agents/coder/a2a_server.py:238-242 | Of two working tasks one is abandoned; while no task is abandoned at most one works and it is the lock holder's |
| TaskServer.RegistryIsLive | cloud-agents/coder/a2a_server.py:278-278 | The registry always names every stored task that is not over, by a live executor of its own if and only if the task is not abandoned, and by the lock holder while that works on it; after clean runs it names nothing else, every entry a live executor of its own task, and it is empty when no executor is left |
| TaskServer.CancelReaches | cloud-agents/coder/a2a_server.py:348-358 | Canceling a stored task that is not over cancels every executor that may still act on it |
| TaskServer.StepAttended | cloud-agents/coder/a2a_server.py:237-278 | A step abandons no task while workspaces can be created, and leaves nothing over in the registry while refused texts, too, come under new ids |
| TaskServer.CleanRunsAreTidy | cloud-agents/coder/a2a_server.py:237-278 | The same over whole runs |
| TaskServer.UnsafeSendBreaks | cloud-agents/coder/a2a_server.py:327-338 | After a send that is not safe, accepted or refused, there is a continuation served in lock order in which a task moves backwards |
| TaskServer.SendWaiters | cloud-agents/coder/a2a_server.py:322-339 | A safe send moves its own task forward and leaves nobody waiting who could throw a task back, and no two live executors under one id |
| TaskServer.QuietRunKeeps | cloud-agents/coder/a2a_server.py:237-278 | While nobody waits who could throw a task back, every run without further sends moves every task only forward, whichever workspaces cannot be created |
| TaskServer.CleanIsExact | cloud-agents/coder/a2a_server.py:322-339 | A send keeps the life cycle in all continuations, lost workspaces included, if and only if it is safe: an accepted one needs an id that is not stored and that no live executor goes by; one that does not parse needs only that the stored task may become the refusal and that nobody waits to work on it |
| TaskServer.LostWorkspaceAbandons | cloud-agents/coder/a2a_server.py:237-245 | Also after earlier losses: the task an executor starts is left working with no executor to end it if and only if its workspace cannot be created and it was not canceled before |
| TaskServer.AbandonedStays | cloud-agents/coder/a2a_server.py:242-245 | Such a task stays working until it is canceled, replaced or evicted |
| CircuitBreaker.CircuitBreaker.AllowRequest | operator-mcp/operator_mcp/circuit_breaker.py:96-112 | A request is admitted if and only if too few failures are outstanding, or it comes a recovery timeout after the last failure and no request before it did; outstanding are the positions of failures with no success or reset after them |
| CircuitBreaker.CircuitBreaker.RecordSuccess | operator-mcp/operator_mcp/circuit_breaker.py:114-121 | The stored fields remain the function of the history that the invariant states |
| CircuitBreaker.CircuitBreaker.RecordFailure | operator-mcp/operator_mcp/circuit_breaker.py:123-137 | Open afterwards if and only if the number of outstanding failures is at least the threshold; the last failure restarts the timeout |
| CircuitBreaker.CircuitBreaker.Reset | operator-mcp/operator_mcp/circuit_breaker.py:139-144 | The history restarts; a probe flag left raised by the reset never matters |
| CircuitBreaker.TrippedMeans | operator-mcp/operator_mcp/circuit_breaker.py:123-137 | Over every history the breaker is tripped if and only if the outstanding failures, counted by position, number at least max(1, threshold) |
| CircuitBreaker.AdmitsMeans | operator-mcp/operator_mcp/circuit_breaker.py:83-112 | Over every history, admission by position of the last failure and of the requests since |
| CircuitBreaker.TooSoon | operator-mcp/operator_mcp/circuit_breaker.py:83-107 | Sooner than a recovery timeout after the last failure a request is refused if and only if enough failures are outstanding |
| CircuitBreaker.ProbesAreSpaced | operator-mcp/operator_mcp/circuit_breaker.py:83-137 | With no success and no reset, admitted requests are a recovery timeout after the trip and apart, late failures included |
| CircuitBreaker.ProbeRate | operator-mcp/operator_mcp/circuit_breaker.py:83-137 | Hence at most floor(L/R) requests are admitted in the L seconds after a trip |
| CircuitBreaker.SpacedCount | operator-mcp/operator_mcp/circuit_breaker.py:103-112 | Times at least a gap apart and after a start number at most the length over the gap |
| CircuitBreaker.UnansweredProbeLocksOut | operator-mcp/operator_mcp/circuit_breaker.py:108-112 | Once a probe is out and nothing is recorded, every later request is refused at any time |
| CircuitBreaker.Client.GetAgent | operator-mcp/operator_mcp/session_manager_client.py:317-329 | What a gated call adds to the history: nothing for a status other than 200 or when it is cancelled, a success for any body that decodes, a success and a failure for one that does not |
| CircuitBreaker.Client.SendQuery | operator-mcp/operator_mcp/session_manager_client.py:289-315 | Only the exception of the second attempt counts; an error status or a cancellation records nothing |
| CircuitBreaker.Client.TryTwice | operator-mcp/operator_mcp/session_manager_client.py:298-313 | The outcome recorded is that of the second attempt when the first raises: a success below status 400, one failure for an exception, nothing otherwise |
| CircuitBreaker.Client.Health | operator-mcp/operator_mcp/session_manager_client.py:205-218 | The ungated check records its outcome without asking the breaker, and nothing when it is cancelled; an empty body is a success for the breaker and not healthy |
| CircuitBreaker.Client.EnsureRunning | operator-mcp/operator_mcp/session_manager_client.py:220-236 | What a series of health checks records that ends with the first body that is not empty or with a cancellation, and whether the sidecar counts as available |
| CircuitBreaker.EnsuredMeans | operator-mcp/operator_mcp/session_manager_client.py:220-236 | The health checks made are those up to the first that is answered well or cancelled, which says how they end |
| CircuitBreaker.AvailableMeans | operator-mcp/operator_mcp/session_manager_client.py:205-218 | The last check made that was answered with 200 or failed says whether the sidecar counts as available |
| CircuitBreaker.Client.CreateAgent | operator-mcp/operator_mcp/session_manager_client.py:258-287 | A call that asks the breaker, checks the health, and returns without recording anything when the sidecar cannot be brought up |
| CircuitBreaker.CreateMeans | operator-mcp/operator_mcp/session_manager_client.py:258-287 | What creating an agent does in order: the gate, the checks made, and the outcome of the attempts unless a check was cancelled |
| CircuitBreaker.RefusesForever | operator-mcp/operator_mcp/circuit_breaker.py:96-112 | Requests are refused at all times if and only if the breaker has tripped and its probe is out |
| CircuitBreaker.ProbeUnlocks | operator-mcp/operator_mcp/session_manager_client.py:258-329 | A probe leaves a way back if and only if it records an outcome: not when it is answered with an error status, cancelled, or never sent |
| CircuitBreaker.CheckUnlocks | operator-mcp/operator_mcp/session_manager_client.py:205-218 | With the probe out, an ungated outcome leaves a way back if and only if it is recorded, undecodable bodies included |
| CircuitBreaker.LockedOutExactly | operator-mcp/operator_mcp/session_manager_client.py:205-329 | For every sequence of calls: requests are refused for ever if and only if some probe that recorded nothing is not followed by a recorded ungated outcome |
| CircuitBreaker.OnlyHealthUnlocks | operator-mcp/operator_mcp/session_manager_client.py:205-329 | With the probe out, a gated call can be admitted at some point of a sequence if and only if an ungated call records an outcome |
| CircuitBreaker.HealthUnlocks | operator-mcp/operator_mcp/session_manager_client.py:205-218 | How soon after a health check: at once for any body that decodes, after exactly a recovery timeout if it failed, and for an undecodable body by whether one failure trips the breaker |
| RetryQueue.RetryQueue.EnqueueOp | operator-mcp/operator_mcp/retry_queue.py:75-108 | An operation enters, replacing a pending one with its id |
| RetryQueue.RetryQueue.CancelOp | operator-mcp/operator_mcp/retry_queue.py:110-116 | A pending operation leaves; an unknown id changes nothing |
| RetryQueue.RetryQueue.CollectReady | operator-mcp/operator_mcp/retry_queue.py:162-166 | The batch is exactly the due operations, each once |
| RetryQueue.RetryQueue.StartTry | operator-mcp/operator_mcp/retry_queue.py:175-181 | The attempt is counted before the call is awaited |
| RetryQueue.RetryQueue.FinishTry | operator-mcp/operator_mcp/retry_queue.py:186-222 | The awaited call's result leads to the step of the protocol, whose effect EndByResult states |
| RetryQueue.EndByResult | operator-mcp/operator_mcp/retry_queue.py:186-222 | A success leaves the queue; a failure that is not retryable leaves as exhausted at any attempt; a retryable one stays with doubled capped backoff while attempts are left and leaves as exhausted when they are used up; each total changes by exactly that |
| RetryQueue.RetryQueue.StopAndStart | operator-mcp/operator_mcp/retry_queue.py:118-135 | Stopping drops the batch and the awaited try, keeps the queue and the attempts counted, and starting begins a new round, also after the loop has died |
| RetryQueue.RetryQueue.Delete | operator-mcp/operator_mcp/retry_queue.py:190-209 | Deletion is by id and ends the loop when the id is gone |
| RetryQueue.Conservation | operator-mcp/operator_mcp/retry_queue.py:75-116 | Enqueued equals succeeded plus exhausted plus cancelled plus replaced plus pending |
| RetryQueue.EndKeepsTheBooks | operator-mcp/operator_mcp/retry_queue.py:186-217 | An ending operation keeps every operation accounted for if and only if it is itself still in the queue |
| RetryQueue.EndLosesAnother | operator-mcp/operator_mcp/retry_queue.py:190-209 | It takes another operation with it if and only if its id is queued under another one, and ends the loop if and only if its id is gone |
| RetryQueue.StepDies | operator-mcp/operator_mcp/retry_queue.py:186-209 | A step ends the loop if and only if it is an ending step whose operation's id is gone |
| RetryQueue.RunsAreTracked | operator-mcp/operator_mcp/retry_queue.py:75-222 | Over every run the queue holds exactly the operations that have not left it, each under its own id |
| RetryQueue.CancelThenEnd | operator-mcp/operator_mcp/retry_queue.py:110-116 | Corollary: cancelling an operation while it is awaited ends the retry loop when the operation ends |
| RetryQueue.ReplaceThenEnd | operator-mcp/operator_mcp/retry_queue.py:95-106 | Replacing it makes the end of the old operation take the new one out untried, with the loop alive and the totals still adding up |
| RetryQueue.EmptyQueue | operator-mcp/operator_mcp/retry_queue.py:60-69 | The empty queue satisfies every invariant |
| RetryQueue.StepAccounted | operator-mcp/operator_mcp/retry_queue.py:158-217 | Every step that leaves the ids of the batch alone keeps the books |
| RetryQueue.RunsConserve | operator-mcp/operator_mcp/retry_queue.py:75-222 | Over every run, stops and starts included and with no condition on the callers, enqueued equals succeeded plus exhausted plus cancelled plus replaced plus pending if and only if the loop has never died, that is, unless some ending step found its id gone |
| RetryQueue.RunsBalance | operator-mcp/operator_mcp/retry_queue.py:75-222 | The totals are off by exactly the number of times the loop has died |
| RetryQueue.ConsiderateRunsLoseNothing | operator-mcp/operator_mcp/retry_queue.py:158-222 | Over runs that leave the ids of the batch alone no operation is lost or counted twice and the batch stays queued |
| RetryQueue.BackoffDoubles | operator-mcp/operator_mcp/retry_queue.py:220-220 | Doubling and capping step by step is min(initial * 2^k, max_backoff) |
| RetryQueue.RunsAreTimely | operator-mcp/operator_mcp/retry_queue.py:118-222 | Over any run, with j attempts made that no stop cut off, the next starts no earlier than its closed-form schedule, j is below the limit, and the backoff has its closed form; without stops these are the attempts configured |
| RetryQueue.CutOffIsDueAtOnce | operator-mcp/operator_mcp/retry_queue.py:118-179 | The exact price of a stop: an operation whose awaited try is cut off is due at the moment of the start, its attempt counted, and passes its limit if and only if that was its last attempt |
| RetryQueue.LastAttemptLeaves | operator-mcp/operator_mcp/retry_queue.py:204-209 | A try that ends at or above max(1, max_retries) attempts takes the operation out of the queue |
| RetryQueue.RetriedToTheEnd | operator-mcp/operator_mcp/retry_queue.py:158-222 | Over every run: an operation left alone, not cut off by a stop and failing retryably each time is queued until its tries have come to max(1, max_retries) and the last is over, and then out as exhausted |
| RetryQueue.EnqueuedIsAlone | operator-mcp/operator_mcp/retry_queue.py:75-108 | This holds from the moment an operation is enqueued unless an older one by its id is in hand |
| Multimodal.ParseImageMarkers | src/multimodal.rs:55-88 | The cursor loop gives the text and references of the left-to-right reading |
| Multimodal.ScanShift | src/multimodal.rs:60-84 | Reading on from a cursor is reading the rest of the text on its own |
| Multimodal.ScanGivesRefs | src/multimodal.rs:71-78 | Every reference read out of any text is non-empty, trimmed and free of `]` |
| Multimodal.NoRefsNoChange | src/multimodal.rs:71-84 | A text without references is read as itself, empty and unclosed markers included |
| Multimodal.ComposeMultimodalMessage | src/multimodal.rs:175-194 | The loop gives the trimmed text, a blank line and the markers one per line |
| Multimodal.ScanMarkers | src/multimodal.rs:184-191 | Composed markers are read back as the references with only blanks around them |
| Multimodal.ScanThen | src/multimodal.rs:60-84 | A text that does not end inside a marker and what follows a line break are read independently |
| Multimodal.SwallowsFirst | src/multimodal.rs:60-69 | A text that ends inside a marker swallows the first composed reference into a longer one |
| Multimodal.ReadComposed | src/multimodal.rs:175-194 | What parsing any composed message finds, dangling texts included |
| Multimodal.RoundTrip | src/multimodal.rs:175-194 | Parsing a composed message gives text and references back if and only if the text is trimmed, holds no reference and does not dangle, and the references are ones a marker can carry |
| Preparation.PrepareMessages | src/multimodal.rs:117-173 | Refused exactly above the limit, which is the configured one kept between 1 and 16; returned unchanged without images; messages of other roles and without references stay; otherwise every user message with images rewritten, or the first reference that does not load reported |
| Preparation.LoadRefs | src/multimodal.rs:155-160 | All references load in order, or the first that does not is named |
| Preparation.UriIsRef | src/multimodal.rs:220-260 | A data URI of an allowed type and encoded payload is always a reference a marker can carry |
| Preparation.PayloadChars | src/multimodal.rs:220-260 | The characters of an encoded payload are those of the Base64 alphabet and its padding |
| Preparation.ImagesKept | src/multimodal.rs:142-167 | Preparing keeps the image count plus exactly the references the cleaned texts still hold |
| Preparation.MessageKept | src/multimodal.rs:149-166 | A prepared message parses to its cleaned text and data URIs if and only if that text holds no reference and does not dangle |
| Preparation.Spliced | src/multimodal.rs:60-84 | Removing one marker can splice another together: one image in, two out |
| Identity.DedupeNonEmpty | src/identity.rs:640-655 | The accumulating loop keeps the first text of each kind, kinds being texts up to blanks and ASCII case |
| Identity.AnyEqual | src/identity.rs:647-650 | Membership among the kept texts is membership of the kind |
| Identity.ScalarMeans | src/identity.rs:540-552 | A text that is not blank, trimmed, a number or a truth value stands for itself, and nothing else does |
| Identity.KindsKept | src/identity.rs:640-655 | Exactly the kinds of the non-blank inputs remain |
| Identity.AllDifferent | src/identity.rs:640-655 | What remains is trimmed, non-blank and pairwise of different kinds |
| Identity.DistinctFront | src/identity.rs:612-620 | Dropping repetitions early in front of a list changes nothing |
| Identity.DistinctBack | src/identity.rs:612-620 | Nor does it at the end of a list |
| Identity.ListFromValue | src/identity.rs:612-638 | Main result: although repetitions are dropped at every level, the list is one dedupe of the in-order flattening, for every JSON value; the mutual recursion ends |
| Identity.NamedObject | src/identity.rs:621-628 | An object that has a name is listed by its name, one that only has a title by its title |
| Identity.UnnamedObject | src/identity.rs:572-580 | Any other object is listed by its summary lines, or not at all when there are none |
| Identity.SummarizeObject | src/identity.rs:572-580 | The summary is the joined lines, or nothing when there are none |
| Identity.SummarizeObjectIntoParts | src/identity.rs:582-610 | Nested objects add their lines under longer labels, after the lines already there |
| Identity.SummaryLines | src/identity.rs:582-610 | The lines are exactly those of the values reached in the object over keys none of which starts with `@`, each under the keys on its way |
| Identity.JoinMeans | src/identity.rs:574-578 | Joined parts stand one after the other with the separator between any two |
| Identity.ListMeaning | src/identity.rs:612-655 | The list holds each kind found in the value once and nothing else |
| Identity.BracketsDoNotShow | src/identity.rs:616-620 | An inner list counts as its entries in its place |
| Identity.RereadList | src/identity.rs:612-655 | Reading a list from its own texts gives it again |
| Ontology.KeyIsToken | operator-mcp/operator_mcp/canon_ontology.py:367-389 | The alias key is the canonical token with blanks for underscores and lower case, for every text over ASCII and Hangul |
| Ontology.TokenIsToken | operator-mcp/operator_mcp/canon_ontology.py:379-389 | A token is words with single underscores between them |
| Ontology.AsciiWords | operator-mcp/operator_mcp/canon_ontology.py:367-389 | Of the ASCII characters exactly the letters and digits are word characters; the underscore separates |
| Ontology.SameKeySameType | operator-mcp/operator_mcp/canon_ontology.py:445-471 | Two texts with one non-empty alias key normalise to one result, whatever the tables |
| Ontology.TypesDoNotCollide | operator-mcp/operator_mcp/canon_ontology.py:462-471 | Outside the alias table two texts share a type if and only if they have the same words up to case, or no words and the same text |
| Ontology.BuiltKeyed | operator-mcp/operator_mcp/canon_ontology.py:441-442 | Keys folded while the table is built are their own keys |
| Ontology.UnknownStays | operator-mcp/operator_mcp/canon_ontology.py:462-471 | An unknown type over ASCII and Hangul is normalised to itself without any condition on the tables |
| Ontology.NormalizeTwice | operator-mcp/operator_mcp/canon_ontology.py:445-471 | Normalising is idempotent on every text over ASCII and Hangul if and only if every type the tables return is its own alias or none |
| Casing.CasingIsExact | operator-mcp/operator_mcp/canon_ontology.py:367-389 | Over any script, a text is normalised idempotently by every table that does not list it if and only if the casing fits it: its type has its key, and is its own type |
| Casing.SettledIsExact | operator-mcp/operator_mcp/canon_ontology.py:367-389 | For case mappings that work character by character and keep words words, normalising is idempotent on every text by every table that does not list it if and only if upper case is its own upper case and has the lower case of the letter it came from |
| Casing.LatinSettles | operator-mcp/operator_mcp/canon_ontology.py:367-389 | The mappings over ASCII and Hangul keep words words and settle |
| Casing.PlainIsNormalize | operator-mcp/operator_mcp/canon_ontology.py:445-471 | Over ASCII and Hangul the normalising of any script is the one modelled above |
| Casing.PlainFits | operator-mcp/operator_mcp/canon_ontology.py:367-389 | There the casing fits every text |
| OntologyTables.ShippedIsClosed | operator-mcp/operator_mcp/canon_ontology.py:243-442 | Every type the shipped alias table returns is, read as a text, its own alias or none |
| OntologyTables.AliasesAreKept | operator-mcp/operator_mcp/canon_ontology.py:441-442 | In any table folded from the listed rows, every alias of a row is a key under its own spelling |
| OntologyTables.LastRowWins | operator-mcp/operator_mcp/canon_ontology.py:441-442 | Folded from the listed rows, an alias has the type of the last row that lists it |
| OntologyTables.AliasesHaveOneRow | operator-mcp/operator_mcp/canon_ontology.py:394-442 | No two shipped rows list the same alias |
| OntologyTables.AliasesResolve | operator-mcp/operator_mcp/canon_ontology.py:243-442 | Every shipped alias is in the shipped table under its own spelling and normalises to the type of its row |
| OntologyTables.ShippedIsIdempotent | operator-mcp/operator_mcp/canon_ontology.py:243-442 | The shipped table, built with folded keys, has only folded keys, and normalising with it is idempotent on every text over ASCII and Hangul |
| OntologyTables.TypeStays | operator-mcp/operator_mcp/canon_ontology.py:394-442 | Every shipped type read as a text is returned unchanged |
| JournalRotation.Journal.constructor | operator-mcp/operator_mcp/journal.py:25-31 | A new journal has no file and nothing recorded |
| JournalRotation.Journal.Append | operator-mcp/operator_mcp/journal.py:39-81 | A line is added to the live file, or the call raises and nothing changes |
| JournalRotation.Journal.Rotate | operator-mcp/operator_mcp/journal_health.py:202-225 | The shift of all backups with the first failing operation ending it; no rename lands on a file when a backup is allowed, whatever gaps earlier failures left |
| JournalRotation.Journal.CheckFiles | operator-mcp/operator_mcp/journal_health.py:137-170 | Rotation exactly when the live file has reached the limit; the probe recreates a missing live file |
| JournalRotation.RotatedKept | operator-mcp/operator_mcp/journal_health.py:202-225 | A rotation loses the oldest backup or nothing and keeps the order of the rest |
| JournalRotation.StepBooks | operator-mcp/operator_mcp/journal_health.py:137-225 | Every record, check and rotation keeps dropped plus kept equal to all recorded lines |
| JournalRotation.KeptIsSuffix | operator-mcp/operator_mcp/journal_health.py:137-225 | Over every run, failing operations included, backups oldest to newest and the live file are a suffix of history and only the front is ever dropped |
| JournalRotation.StartBooks | operator-mcp/operator_mcp/journal.py:25-31 | An empty journal satisfies the invariant |
| JournalRotation.RunFilled | operator-mcp/operator_mcp/journal_health.py:202-225 | With no failing operation backups have no gaps, each had reached the limit, and lines are dropped only when all places are taken |
| JournalRotation.DropsOnlyWhenFull | operator-mcp/operator_mcp/journal_health.py:202-225 | Hence whenever anything was dropped at least max_backups times the limit is still kept |
| JournalRotation.RotationLoses | operator-mcp/operator_mcp/journal_health.py:205-225 | A rotation loses lines if and only if the oldest backup holds some and can be removed; it leaves the live file in place if and only if some file it touches is stuck |
| JournalRotation.UnfinishedLoses | operator-mcp/operator_mcp/journal_health.py:205-225 | A rotation that leaves the live file in place costs a backup if and only if something below the oldest backup is stuck while that one holds lines and can be removed |
| JournalRotation.NothingDropped | operator-mcp/operator_mcp/journal_health.py:137-225 | Over every run nothing is dropped if and only if at each rotation the oldest place is empty or cannot be removed |
| JournalRotation.StuckLosesBackups | operator-mcp/operator_mcp/journal_health.py:205-225 | If only moving the live file fails, as many checks as there are backups leave no backup at all |
| TeamEdges.DedupeAndSortEdges | operator-mcp/operator_mcp/kumiho_clients.py:876-886 | The strictly sorted list of exactly the given edges, or an exception if and only if an edge type cannot be hashed or two edges differ only in types that cannot be compared |
| TeamEdges.OneSortedList | operator-mcp/operator_mcp/kumiho_clients.py:876-886 | A set of edges has only one such list |
| TeamEdges.BeforeOrder | operator-mcp/operator_mcp/kumiho_clients.py:885-885 | The order of the list is a strict total order on edges |
| TeamEdges.RevisionMap | operator-mcp/operator_mcp/kumiho_clients.py:1045-1052 | The revision map built member by member, a later member winning |
| TeamEdges.ReadListing | operator-mcp/operator_mcp/kumiho_clients.py:1060-1069 | The normalised edges of a listing up to its first malformed entry |
| TeamEdges.EdgeExactly | operator-mcp/operator_mcp/kumiho_clients.py:821-873 | A raw edge becomes an edge of the team if and only if its ends stand for two different members, by any revision with any query, and it goes out of the member it was listed for; direction and type are kept |
| TeamEdges.ListedEdgeIsFound | operator-mcp/operator_mcp/kumiho_clients.py:1043-1071 | An edge listed from one member's revision to another's is in the team's edge set |
| TeamEdges.QueryStripped | operator-mcp/operator_mcp/kumiho_clients.py:833-833 | An endpoint is compared by what stands before its first question mark |
| TeamEdges.GetTeamSdk | operator-mcp/operator_mcp/kumiho_clients.py:1043-1086 | The direct path returns the sorted list of its edge set, or no team if and only if that set cannot be sorted |
| TeamEdges.GetTeamHttp | operator-mcp/operator_mcp/kumiho_clients.py:1120-1160 | The HTTP path returns the sorted list of its edge set, or no team if and only if that set cannot be sorted |
| TeamEdges.OneKindLosesTheTeam | operator-mcp/operator_mcp/kumiho_clients.py:1060-1086 | Corollary: one edge of the team with a list or an object for a type loses the whole team |
| TeamEdges.EdgesJoinMembers | operator-mcp/operator_mcp/kumiho_clients.py:843-873 | Corollary: every edge joins two different members of the team |
| TeamEdges.SameRevMap | operator-mcp/operator_mcp/kumiho_clients.py:1045-1052 | The revision map does not depend on the order of the members when they do not share revisions |
| TeamEdges.OneList | operator-mcp/operator_mcp/kumiho_clients.py:1043-1160 | Member order, order within listings and the path taken cannot change the answer while the listings of the members' revisions can be read |
| TeamEdges.PathsAgree | operator-mcp/operator_mcp/kumiho_clients.py:1060-1069 | HTTP never finds more than the direct path, and the same if and only if no listing has a team edge in front of a malformed entry; it can sort its edges whenever the direct path can |
| Migration.DecimalInjective | src/migration.rs:183-183 | Different numbers give different suffixes |
| Migration.DecimalReads | src/migration.rs:183-183 | A number read back from its digits is itself |
| Migration.NextAvailableSlug | src/migration.rs:181-189 | The loop finds the first free number from 2 to 10000, else the time |
| Migration.NextFreeIsFirst | src/migration.rs:181-189 | The slug chosen has the first number from 2 to 10000 that no item has, or the time when all are taken |
| Migration.NextFreeIsNew | src/migration.rs:181-189 | The chosen slug is new if and only if some number is free or the time is |
| Migration.RoomForOne | src/migration.rs:181-189 | Fewer than 9999 items leave a number free |
| Migration.OwnSlugMeans | src/migration.rs:113-122 | An entry asks for the slug of its key, or its position stands in for a missing key or slug; the slug is never empty |
| Migration.ImportEntries | src/migration.rs:112-154 | The loop places, renames or skips each entry as the step function says |
| Migration.ImportOnlyAdds | src/migration.rs:112-154 | With room for all entries nothing is overwritten, imported plus skipped is the number of entries and the map grows by exactly imported |
| Migration.RenamedAreMovers | src/migration.rs:137-138 | The renamed counter is the number of entries placed under another slug than their own |
| Migration.RenamesNothing | src/migration.rs:112-139 | An import renames nothing if and only if every entry matches, as far as revisions can be read, the item that has its slug or else the first entry before it that asks for it |
| Migration.ImportAgain | src/migration.rs:112-154 | A second import brings in again exactly the entries that find other content under their slug or, where the latest revision cannot be read, are not empty, under new names once more; it changes nothing if and only if there is none |
| Migration.RepeatsAreRenamed | src/migration.rs:122-138 | While every revision can be read in both runs these are exactly the entries renamed the first time |
| EventBuffers.EventConsumer.OnGlobalEvent | operator-mcp/operator_mcp/event_consumer.py:260-285 | Every buffer remains the last 200 events of its agent since it was set up; an unknown agent gets one |
| EventBuffers.EventConsumer.OnOwnEvent | operator-mcp/operator_mcp/event_consumer.py:305-315 | The same for the agent's own stream, which fills only a buffer that exists |
| EventBuffers.EventConsumer.Register | operator-mcp/operator_mcp/event_consumer.py:118-140 | The same for a subscription, which keeps what is there |
| EventBuffers.EventConsumer.Forget | operator-mcp/operator_mcp/event_consumer.py:162-170 | The same for leaving, after which the agent starts anew |
| EventBuffers.EventConsumer.CleanupFinished | operator-mcp/operator_mcp/event_consumer.py:172-181 | Exactly the buffers of inactive agents go, and their number is returned |
| EventBuffers.EventConsumer.GetEvents | operator-mcp/operator_mcp/event_consumer.py:183-188 | A poll is the buffered end of the collected events from a position on |
| EventBuffers.CollectedMeans | operator-mcp/operator_mcp/event_consumer.py:118-315 | Over every history: an agent has a buffer if and only if something set it up since it was last dropped, and has collected exactly the events put into it since then |
| EventBuffers.SinceSome | operator-mcp/operator_mcp/event_consumer.py:162-181 | There always is a position since which nothing dropped the buffer |
| EventBuffers.PollIsExact | operator-mcp/operator_mcp/event_consumer.py:183-188 | Corollary for one poll: asking from the number of events seen gives exactly the new ones if and only if none was dropped or nothing is new |
| EventBuffers.PollStalls | operator-mcp/operator_mcp/event_consumer.py:183-188 | Corollary: having seen a full buffer such a poller is never given anything again |
| EventBuffers.PollerIsGiven | operator-mcp/operator_mcp/event_consumer.py:183-188 | However many polls it makes, one after each batch of events, such a poller is given as many events as were sent, at most 200, and it has exactly those sent if and only if they were no more |
| EventBuffers.PollerIsDeaf | operator-mcp/operator_mcp/event_consumer.py:183-188 | Once 200 events were sent it is given nothing more in any number of polls |
| Reconnect.LoadHistory | operator-mcp/operator_mcp/journal.py:85-113 | The readable entries newest first, at most the limit |
| Reconnect.BuildJournalIndex | operator-mcp/operator_mcp/reconnect.py:124-136 | Each sidecar id found among the last 200 readable entries is mapped to its newest entry, and no other id |
| Reconnect.OneIndex | operator-mcp/operator_mcp/reconnect.py:124-136 | That determines the index |
| Reconnect.Operator.ReconnectAgents | operator-mcp/operator_mcp/reconnect.py:35-121 | Registry, recovered list and subscriptions after the reports have been gone through, whatever the other tasks do to the registry while a subscription is awaited; no sidecar reply changes nothing |
| Reconnect.Undisturbed | operator-mcp/operator_mcp/reconnect.py:67-121 | Left alone by the others it is the plain reading that the next lemmas are about |
| Reconnect.OnlyAdds | operator-mcp/operator_mcp/reconnect.py:67-121 | No registered agent is replaced, recovered ids are distinct and the only new keys, and the id named for every live agent is taken afterwards |
| Reconnect.RegisteredExactly | operator-mcp/operator_mcp/reconnect.py:74-102 | The new registrations are exactly those of the first live report for each free id, each with that report's data |
| Reconnect.RestoredFromJournal | operator-mcp/operator_mcp/reconnect.py:74-111 | An agent whose spawn the journal recorded in full comes back under its own id with its own type, title and directory |
| Reconnect.RestoredFromReport | operator-mcp/operator_mcp/reconnect.py:74-111 | What the journal leaves open is taken from the sidecar, and what that leaves open has a default; the status is idle or running |
| Reconnect.RegisteredAsThemselves | operator-mcp/operator_mcp/reconnect.py:74-102 | Every live agent ends up registered under its own sidecar id if and only if the ids named for them are free or already theirs, and distinct for different agents |
| Reconnect.AddsNothing | operator-mcp/operator_mcp/reconnect.py:90-92 | A reconnect adds nothing if and only if every live agent's id is taken |
| Reconnect.ReconnectTwice | operator-mcp/operator_mcp/reconnect.py:35-121 | Reconnecting twice over one index is reconnecting once |
| Reconnect.DoublesExactly | operator-mcp/operator_mcp/reconnect.py:74-102 | A reconnect registers one sidecar agent under two ids if and only if a report registers an agent that is registered under another id already |
| Reconnect.DoublesForeseen | operator-mcp/operator_mcp/reconnect.py:67-121 | Counting the sidecar ids that spawns under way will receive, a reconnect makes two agents one if and only if a report registers an agent that another id has or will receive |
| Reconnect.WaitingSpawnDoubles | operator-mcp/operator_mcp/reconnect.py:90-104 | While a spawn waits for its answer its agent can be registered a second time with no two agents one yet; the answer makes them one |
| Reconnect.NothingForeseen | operator-mcp/operator_mcp/reconnect.py:90-104 | With no spawn under way the foreseen registry is the registry |
| Reconnect.AmidOnlyAdds | operator-mcp/operator_mcp/reconnect.py:67-121 | When the others take nobody out, registered agents and their sidecar ids stay, recovered ids are distinct and new, and the id named for every live agent is taken afterwards |
| Reconnect.RegisteringDoublesExactly | operator-mcp/operator_mcp/reconnect.py:90-104 | Registering one report makes two registered agents one if and only if the agent is registered under another id at that moment |
| Reconnect.AmidDoublesExactly | operator-mcp/operator_mcp/reconnect.py:67-121 | When the others, between the reports, take nobody out, answer spawns as foreseen and make no two agents one themselves, a reconnect makes two agents one if and only if some report registers an agent that another id has by then or will receive |

## Left out

- TaskServer.StoreIsLastEntered: assumes MAX_TASKS of at least 1; with a negative value the source pops from an empty queue and raises.
- CircuitBreaker.CircuitBreaker.RecordFailure: the clock is read once where the source may read it twice in a row.
- RetryQueue.RunsBalance: the success and exhaustion callbacks are not modelled.
- RunLog.Log.Append: every write succeeds and time stamps are not modelled; a failed write is only logged by the source.
- RunLog.ReplayRefinesLive: token counts and costs are exact real numbers, so float rounding is not modelled; the equality of `True` and `1` in a Python set is not modelled either.
- RunLog.Log.constructor: an old file whose last line is only partly written, which would swallow the new header, and recording into a log that was loaded from disk are not modelled.
- RunLog.LoadLogFromDisk: a line that decodes to something other than an object is not modelled.
- SseStream.Consume: separators are single line feeds, as the source has it; carriage returns of the standard are not separators there.
- Preparation.PrepareMessages: what a reference loads as is an input; fetching, size limits and the Base64 coding itself are not modelled.
- Ontology.NormalizeTwice: word characters are ASCII letters and digits and Hangul syllables, and case mapping is ASCII; other scripts are covered by Casing.CasingIsExact and Casing.SettledIsExact.
- Casing.SettledIsExact: mappings that look at neighbouring characters, as for the Greek final sigma, and those that turn a letter into a combining mark are covered by Casing.CasingIsExact only.
- CircuitBreaker.Client.EnsureRunning: a health body that is a list or a bare value, on which reading the agent count raises, is not modelled.
- JournalRotation.Journal.CheckFiles: the health record (status, latency, failure counts) and a partly written line are not modelled.
- JournalRotation.KeptIsSuffix: starts from backups numbered within the configured maximum; files left over from a larger maximum are not modelled.
- TeamEdges.GetTeamSdk: members with their published or latest revisions are an input; the other member fields are not modelled, nor are numbers as edge types.
- Migration.ImportEntries: slugs come from an arbitrary function of the key; a failing create call, which ends the import, is not modelled.
- Reconnect.BuildJournalIndex: a journal line that decodes to something other than an object is not modelled.
- The reviewing agent's A2A server has the same protocol code as the coding agent's and is not modelled again; `tasks/get` and `tasks/list` only read.
- HTTP, SDK, process and gateway plumbing, start-up of the sidecar, and translation of events into channel events are not modelled.
- EventBuffers.EventConsumer.OnGlobalEvent: agent titles, models and consumer tasks are not modelled.
- Registry functions of the run log (lookup, clean-up, listing) and the session summary of the journal are left out as single-branch code.
