# A model of the Coragent session engine

This project models the durable session protocol of Coragent and the algorithms around it, and
proves properties of the model in Dafny. `dafny verify dfyconfig.toml` checks the whole project.

## What is modelled

A session lives on disk as two append-only logs (transcript records and events) and one manifest that
is replaced atomically. Every operation of the engine is a sequence of durable micro-steps, and the
process may die between any two of them.

- `Transcript`, `Validate`, `Shape`: the records, the map-based pairing checker against its declarative
  rule, and the batch structure of a log.
- `Durable`, `CrashSafety`: the disk, the micro-steps the protocol allows (when a record may be logged,
  an event emitted, a manifest replaced, reserved work started), lives as sequences of such steps over
  any number of processes, and the invariant of every life. A crash loses only volatile state, so it is
  not a step: every prefix of a life is a crash point.
- `Recovery`, `CrashTheorems`: reopening and repair as the states they pass through, and what holds at
  every crash point and after every recovery.
- `Store`, `Lives`, `Protocol`: the store as a class whose field `trail` collects the durable states,
  and how each operation continues a life.
- `Session.dfy` (module `Engine`), `Turn`, `Conversation`, `Loading`: the engine as a class: the command gate, the run
  loop with retry, write-ahead budgets, streaming and tool batches, the end of a run, faults, and the
  repair of a loaded session. Each method is one critical section of the session's lock or a sequence
  of them, and at every release of the lock `Interfere` lets other goroutines apply commands, observe
  and shut down. The provider, the tools, the scheduler and the outcome of every write are arbitrary.
  Ghost fields count how often a run's cancel flag has been raised and keep what the provider was
  asked, what it replied and how the waits between ended, so that contracts can speak of them.
- `Process`: any number of processes, each cut after any durable step. `Witness`: a life that ends
  unopenable, one whose recovery tells another end than it logged, and one with a swallowed block.
  `Endings`: whether the two agree, and what each terminal event presupposes in the log.
- `Observer`: the subscriber queue, its pump with the one-slot wake channel, and the registry.
- `Projection`, `LinePass`, `Stream`, `KeyBlocks`: interval merging and redaction, the stateful line
  pass, its chunked streaming form, and private-key blocks with the program's own markers.
- `Agreement`, `AccessKeys`, `Hiding`: when stream and projection agree, the program's rules for access
  keys and private keys as a detector to which that applies, and what stays hidden.
- `Messages`, `Broker`, `Reassembly`, `PagedRead`, `PageFormat`, `Instructions`, `Retry`: provider
  messages and admission, the tool broker, the decoder of streamed tool calls, the paged reader and
  what can be read from its pages, instruction discovery, and the backoff.

A run ID "run-k" is the number k, and 0 is the empty run ID. A char stands for one byte. Rules of the
detector are arbitrary functions from a text to ranges of it; the hypothesis that rules do not look
across a newline is `Stream.LineLocal`, that they also respect key blocks is `Agreement.KeyDetector`;
both are used only where they are named.

## What the model shows about the code

- `validateToolCalls` compares the IDs of one batch as the provider sent them; the loader compares the
  IDs of the whole log as they were logged. A session can be opened at a crash point if and only if
  its logged call IDs are distinct (`OpenExactlyUnique`), and a batch keeps it so if and only if its
  projected IDs are distinct and new to the log (`AppendToolCalls`, `RunTools`). So a provider that
  uses an ID again makes a session that can never be opened again (`ReusedIdBreaksTheSession`,
  `StaleCallIsFatal`); and so may one batch of distinct IDs, because an ID with credential material is
  logged under a name made of its digest, which another ID of the batch may be
  (`LoggedIdsDistinctExactly`, `CheckedBatchCollides`).
- A call whose redacted arguments are no longer JSON is not answered as blocked: its batch cannot be
  logged, and the session faults with nothing written (`AppendToolCalls`, `RunTools`). A JSON object
  that quotes the beginning of a private key is such a call (`QuotedKeyCannotBeLogged`).
- The engine's check that the stream shows the projected text fails without a fault of the engine:
  exactly when a match covers the end of a line, as in a response that quotes a private key, or touches
  the first key block of a line from outside (`AgreesExactly`, `QuotedKeyDisagrees`,
  `KeysSideBySideDisagree`). The run then ends in `EngineInvariant` (`RecordText`), unless it is cancelled
  first.
- `Observe` with a cursor beyond the current mark later delivers events below that cursor
  (`AskingAheadDeliversOlder`); otherwise it delivers exactly the events asked for
  (`DeliversAskedExactly`).
- A private-key block that begins behind an END on the same line and is left open by it is not tracked,
  and its body is emitted (`ReopenedBlockLeaks`); the redactor is exact on all other texts
  (`BlocksTrackedExactly`). Where no line holds a BEGIN behind a closing END neither the stream nor the
  read tool shows anything of a body (`StreamHidesBodies`, `PagesHideBodies`), and with the key rule in
  the detector the redactor shows nothing on any text it tracks, unless a match touches a later block
  of a line (`BodiesStayHidden`, `ClearIsMarked`).
- The continuation hint of the read tool points at itself when a single entry exceeds 64 KiB
  (`LongLineIsNeverShown`); otherwise following the hints shows the whole file
  (`PagingTerminatesExactly`).
- When the log write of an assistant block succeeds but its manifest write fails, the run fails and the
  session goes on with a memory log that misses the durable record until it is reloaded
  (`SwallowedBlock`). In a running or idle session the two logs differ exactly by such blocks
  (`LagsExactly`); the batch structure, and so the readiness of later requests, is not affected
  (`LagsShape`).
- After a crash behind a logged `run_outcome` recovery adds a failed-run event whatever the outcome was
  (`CompletedRunIsToldInterrupted`). Everywhere else the terminal event tells the logged outcome: it
  disagrees exactly for a run that was interrupted between its logged outcome, other than that of an
  interruption, and its terminal event (`EndsAlwaysTold`, `AgreementAfterRecovery`).

## Model

| member | source | states |
|---|---|---|
| Validate.ToolPairs | internal/transcript/validate.go:144-186 | Fills the call, run and result maps in one loop; the answer is that of the step-by-step specification, error for error. |
| Validate.PairStepExact | internal/transcript/validate.go:148-184 | One step of the checker succeeds exactly when the record may follow, and the maps then hold exactly the calls, their runs and the results of the longer log. |
| Validate.PairingExact | internal/transcript/validate.go:144-186 | The map-based checker accepts a log if and only if calls are unique, every result follows its call inside the call's run, results are unique, and no run ends with an open call; the maps then describe the log. |
| Validate.RulePrefixClosed | internal/transcript/validate.go:144-186 | A prefix of a correctly paired log is correctly paired. |
| Validate.ValidateRecords | internal/transcript/validate.go:60-80 | No error if and only if sequence numbers are contiguous from 1, every record is valid, the close fact is last and the pairing rule holds; otherwise the error names a real fault. |
| Validate.AcceptancePrefixClosed | internal/transcript/validate.go:60-80 | Whatever ValidateRecords accepts it also accepts when cut at any record boundary. |
| Validate.ValidateTranscript | internal/transcript/validate.go:41-57 | No error if and only if the log is accepted and every call has its result. |
| Validate.OpenToolCalls | internal/transcript/validate.go:86-108 | Succeeds exactly on accepted logs and returns exactly the unpaired calls, in log order. |
| Validate.OpenToolCallsForRun | internal/transcript/validate.go:113-142 | As OpenToolCalls, and refuses the empty run and an open call of another run. |
| Shape.ShapePairs | internal/engine/session.go:667-707 | In a log written batch by batch with distinct call IDs the pairing rule holds, and the open calls are exactly the pending ones of the last batch, in order, all of the batch's run. |
| CrashSafety.LogStepKeepsInv | internal/engine/session.go:969-1016 | Every record the engine may log, or any prefix of a torn batch, keeps the invariant of the disk. |
| CrashSafety.EventStepKeepsInv | internal/engine/session.go:1027-1046 | Every event the engine may log keeps the invariant, in particular at most one terminal event per run and one close event. |
| CrashSafety.ManifestStepKeepsInv | internal/store/store.go:415-523 | Every manifest replacement of the protocol keeps the invariant. |
| CrashSafety.PathInv | internal/store/store.go:369-523 | At every moment of every life, across any number of crashes and processes: contiguous logs, manifest marks never beyond the logs, exactly one outcome and one terminal event for every run that is not active, nothing of a run behind its outcome, batches that stop after a failure, and reservations that cover the work started. |
| CrashTheorems.OpenExactlyUnique | internal/store/store.go:262-291 | At any crash point Open accepts the session if and only if no two of its tool calls share an ID. |
| CrashTheorems.CallKeepsSessionOpenable | internal/transcript/validate.go:153-158 | A logged call keeps the session openable if and only if no earlier call of the log has its logged ID. |
| Witnesses.ReusedIdBreaksTheSession | internal/engine/session.go:1095-1104 | For every command, prompt and call a life with every durable step of the engine (begin, prompt, start event, reservations, starts, call, its events and result, and the manifest behind each) in which the provider uses the call's ID again, and which Open refuses. |
| Engine.LoggedIdsDistinctExactly | internal/action/broker.go:88-111 | A batch whose provider IDs are distinct is logged under distinct IDs if and only if no plain ID is the name under which a sensitive one is logged and no two sensitive ones share a digest. |
| Engine.CheckedBatchCollides | internal/action/broker.go:95-101 | The failing family: a sensitive ID beside the plain ID made of its digest passes the check of the batch and is logged twice. |
| CrashTheorems.StaleCallIsFatal | internal/transcript/validate.go:153-158 | After a reused call ID no later moment of the session can be opened. |
| CrashTheorems.LifeGrows | internal/store/store.go:369-523 | Between any two moments of a life, over any crashes, logs, marks, consumed commands, run numbers and reservations only grow, and a closed log never grows. |
| CrashTheorems.RunNeverReturns | internal/store/store.go:415-437 | A run that has ended is never active again, so run IDs never repeat. |
| CrashTheorems.CrashSafe | internal/engine/session.go:248-289 | Cut any life anywhere: with distinct call IDs the session opens, its recovery is itself a life, and it ends clean: no active run, a transcript that ValidateTranscript accepts, exactly one outcome and one terminal event for every run ever begun, and closed with exactly one close event if the close fact was logged; the old logs are prefixes of the new ones. |
| CrashTheorems.GoalReached | internal/engine/session.go:1055-1093 | The recovered disk is, but for the high-water marks, determined by the logs: interrupted answers to the open calls, an interrupted outcome, a failed-run event, each only where missing. |
| CrashTheorems.AnswersInOrder | internal/engine/session.go:1069-1073 | Recovery adds exactly one interrupted result per open call, in the provider's order, and leaves the log before it alone. |
| CrashTheorems.RecoveryIdempotent | internal/engine/session.go:1055-1093 | Recovering twice is recovering once. |
| CrashTheorems.RecoveryRestartable | internal/engine/session.go:1055-1093 | Recovery cut after any of its durable steps, any number of times, reaches the same logs and manifest as an uninterrupted one. |
| CrashTheorems.RecoveryKeepsClose | internal/engine/session.go:277-289 | Recovery neither opens a closing session nor closes an open one. |
| CrashTheorems.BatchesAreLive | internal/engine/session.go:672-707 | In every moment of every life the results of a batch are successes, at most one other outcome, and then only calls skipped, or interrupted by a crash. |
| CrashTheorems.WriteAhead | internal/store/store.go:491-523 | At every crash point the durable counters of a run cover the calls, attempts and waits actually started and stay within 64 calls, 96 attempts and ten minutes. |
| CrashTheorems.RecordsComplete | internal/transcript/transcript.go:234-312 | At every moment of every life the records are numbered from 1 and complete: no empty text, name or ID, valid JSON arguments, a known outcome, a cause exactly for a failed or interrupted run, and only the close belongs to no run. |
| CrashTheorems.EventsComplete | internal/event/event.go:185-272 | So are the events; session facts belong to no run and all others to one. |
| Endings.EndsAlwaysTold | internal/engine/session.go:843-892 | At every moment of every life the terminal event of a run tells its logged outcome, or that the run was found interrupted. |
| Endings.EndsAlwaysLogged | internal/engine/session.go:843-892 | At every moment of every life a run that observers were told has completed has a logged completed outcome, one told to be cancelled a logged cancelled one, and one told to have failed with a cause a logged failed or interrupted outcome with that cause, or the cause is the interruption. |
| Endings.AgreementAfterRecovery | internal/engine/session.go:1055-1093 | After recovery the terminal event of a run agrees with its logged outcome if and only if, for the interrupted run without a terminal event, no outcome had been logged or the logged one was that of an interruption, and for every other run, if it agreed before. |
| Endings.EndAfterRecovery | internal/engine/session.go:1060-1085 | What recovery leaves as the outcome and as the terminal event of the interrupted run. |
| Endings.RecoveredLogs | internal/engine/session.go:1055-1093 | Record by record: recovery adds to the log of an interrupted run without an outcome one interrupted result for each open call, in order, and the outcome of an interrupted run, and otherwise nothing; and one failed-run event with that cause if the run had no terminal event. |
| Witnesses.CompletedRunIsToldInterrupted | internal/engine/session.go:1079-1085 | A life cut behind a logged completed outcome: after recovery the log says that the run completed and the terminal event that it failed, interrupted. |
| Recovery.RecoveryLeads | internal/engine/session.go:1055-1093 | Every durable step of a recovery is one the protocol allows, keeps the invariant and does not change where the recovery is heading. |
| Processes.Live | internal/engine/session.go:197-292 | Any number of processes that open, recover, serve any commands and runs with other goroutines at every release of the lock, and are cut after any durable step, with I/O failing anywhere: what they leave is a moment of a life, every terminal event there tells the logged outcome or an interruption, and with distinct logged call IDs its recovery is clean and its context ready for a provider; and every terminal event has its outcome in the log. |
| Processes.LiveOnce | internal/engine/session.go:197-292 | One such process only continues the life it found. |
| Processes.RecoveredContextIsReady | internal/prompt/assembler.go:92-130 | After every completed recovery each assistant message with calls is immediately followed by exactly its results. |
| Store.Store.AppendTranscript | internal/store/store.go:371-394 | Numbers the records from the end of the log, refuses the whole batch if one is invalid, and otherwise passes through every prefix of the batch before the manifest replacement. |
| Store.Store.AppendEvent | internal/store/store.go:398-411 | Accepts only the next cursor; the event is on disk before the manifest that counts it. |
| Store.Store.BeginRun | internal/store/store.go:415-437 | One manifest write consumes the command ID, allocates the next run ID and opens its zero budget; refused without change when closed, seen or active. |
| Store.Store.RecordCommand | internal/store/store.go:440-449 | Consumes a new ID in one manifest write; a known one is refused without change. |
| Store.Store.FinishRun | internal/store/store.go:451-460 | Clears exactly the named active run. |
| Store.Store.Close | internal/store/store.go:469-481 | Marks an idle session closed; repeated closing changes nothing. |
| Store.Store.ReserveBudget | internal/store/store.go:492-523 | Advances exactly one counter of one known run by the amount and writes it ahead, refused without change exactly beyond 64 calls, 96 attempts or ten minutes; all other budgets are unchanged. |
| Store.Open | internal/store/store.go:262-291 | Accepts exactly the disks whose logs are valid and numbered without a gap and whose marks are not beyond them, and takes the logs as the high-water marks; the rest of the manifest is as it was. |
| Store.MemoryBudgets.Reserve | internal/engine/session.go:819-840 | On a known run the in-memory reservation advances and refuses exactly as the durable one; an unknown run starts from zero. |
| Retry.RetryDelay | internal/engine/session.go:784-796 | The doubling loop computes min(500 ms * 2^retry, 30 s). |
| Retry.Schedule | internal/engine/session.go:784-796 | The backoff is 0.5, 1, 2, 4, 8 and 16 seconds, then 30 seconds for ever. |
| Retry.NextDelay | internal/engine/session.go:752-763 | A positive hint of the server is taken as it is up to two minutes; without one the wait is the jittered capped power of two, or nothing when the jitter is negative. |
| Observer.Subscriber.constructor | internal/engine/session.go:91-98 | The initial events are queued and a wake token is pending if there are any. |
| Observer.Subscriber.Enqueue | internal/engine/session.go:100-110 | Adds the event behind everything promised so far unless closed; an idle pump has a token. |
| Observer.Subscriber.Close | internal/engine/session.go:112-120 | Drops the queue and keeps what has been delivered. |
| Observer.Subscriber.PumpStep | internal/engine/session.go:122-150 | Each step of the pump keeps delivered ++ in flight ++ queued equal to the promised events while open, delivers a prefix of them always, and with a ready consumer leaves less work. |
| Observer.Subscriber.Drain | internal/engine/session.go:122-150 | With a ready consumer an open subscriber has delivered everything it was ever handed after no more pump steps than there is work, and sleeps with nothing queued. |
| Observer.Hub.Observe | internal/engine/session.go:347-379 | Captures exactly the published events above the cursor and registers for what follows. |
| Observer.Hub.Publish | internal/engine/session.go:1048-1053 | Appends to the history and hands the event to every open subscriber. |
| Observer.Hub.Unsubscribe | internal/engine/session.go:370-377 | Removes and closes exactly the named subscriber. |
| Observer.Hub.CloseAll | internal/engine/session.go:908-911 | A fault closes every subscriber and forgets them. |
| Observer.Hub.Complete | internal/engine/session.go:91-150 | What a consumer holds, with the event in flight and the queue, is exactly the published events from where it joined, and a filled queue with an idle pump has a wake token. |
| Observer.Hub.HeardGrows | internal/engine/session.go:112-150 | A subscriber that has been closed has still been handed nothing but published events from where it joined. |
| Observer.DeliversAskedExactly | internal/engine/session.go:347-379 | An observer gets exactly the events above the cursor it asked for if and only if it did not ask beyond the current mark, or nothing was published since. |
| Observer.AskingAheadDeliversOlder | internal/engine/session.go:347-379 | A concrete history in which asking beyond the mark delivers an event below the cursor asked for. |
| Protocol.LagsShape | internal/engine/session.go:642-653 | A log in memory that misses only swallowed assistant blocks has the batch structure of the durable one. |
| Protocol.LagsExactly | internal/engine/session.go:642-653 | The log in memory differs from the durable one if and only if an assistant block is missing from it; by as many records as blocks are missing. |
| Witnesses.SwallowedBlock | internal/store/store.go:384-394 | Such a moment: the block is in the log and the manifest does not count it. |
| Protocol.CallsMayLog | internal/engine/session.go:992-1016 | A batch behind a settled log may reach the disk record by record and leaves exactly its calls pending. |
| Protocol.OwnIdStays | internal/engine/session.go:927-963 | Whatever follows it, a consumed command stays consumed on disk. |
| Engine.Session.Load | internal/engine/session.go:241-256 | The volatile state of a loaded session is exactly what the store holds. |
| Engine.Session.AppendPayload | internal/engine/session.go:969-990 | The log in memory grows only with a fully successful append; an invalid payload changes nothing. |
| Engine.Session.PersistEvent | internal/engine/session.go:1027-1046 | The cursor moves only with a fully successful append. |
| Engine.Session.Log | internal/engine/session.go:969-990 | A record the protocol allows continues the life whatever the disk does; only an unacknowledged record may be missing from the memory log. |
| Engine.Session.Emit | internal/engine/session.go:1018-1025 | An event is published only after it is durable, and memory and disk stay in step. |
| Engine.Session.Fault | internal/engine/session.go:905-916 | The state becomes faulted, all observers are closed, and nothing durable changes. |
| Engine.Session.FaultRun | internal/engine/session.go:900-903 | A faulted run releases its waiters, whose channel is still open, and leaves a valid faulted session. |
| Engine.Session.FinishRun | internal/engine/session.go:843-892 | On success exactly the cancellation boundary of a cancelled run and the outcome with its cause are logged; behind them the run's event is run_completed if and only if it completed, run_cancelled if and only if it was cancelled, and run_failed with the cause if and only if it failed or was interrupted; then the run is cleared and the event published. A failed write is a fault. |
| Engine.Session.LogEnd | internal/engine/session.go:843-855 | Exactly the end records of the run are logged, each once: the cancellation boundary only of a cancelled run, then the outcome with its cause. |
| Engine.Session.PersistEnd | internal/engine/session.go:864-876 | The terminal event is durable and the run cleared on disk before the event is handed on. |
| Engine.Session.PublishEnd | internal/engine/session.go:864-892 | From the logged outcome to the one published event that tells it, completed, cancelled or failed, or a fault. |
| Engine.Session.RecordCommand | internal/engine/session.go:952-963 | A new ID becomes durable or the command fails; a known one is refused without effect. |
| Engine.Session.BeginRun | internal/engine/session.go:927-950 | A new ID and the next run become durable together; an unclear write is a fault. |
| Engine.Session.RecordStart | internal/engine/session.go:456-471 | A run starts with its prompt, the instructions in force if there are any, and its start event, in that order. |
| Engine.Session.StartRun | internal/engine/session.go:448-481 | On success the run is the next one, running, not cancelled, with exactly its start facts logged and published. |
| Engine.Session.RefuseSensitive | internal/engine/session.go:425-438 | A prompt with a detected credential consumes its ID and leaves one warning, and no run. |
| Engine.Session.Submit | internal/engine/session.go:411-481 | On an idle session a prompt some rule matches is refused, as sensitive unless its ID was consumed or a write fails, and only such a prompt is; a started run's prompt is matched by no rule. Each refusal says what was met: closed, running, an ID consumed before, or an instruction failure without effect; otherwise the next run starts. |
| Engine.Session.Cancel | internal/engine/session.go:483-492 | Consumes its ID and raises the flag of a running run; no log changes. |
| Engine.Session.Resume | internal/engine/session.go:494-512 | On an idle session exactly one resumed event; refused when closed, running or seen. |
| Engine.Session.WriteClose | internal/engine/session.go:527-543 | The close fact, then the closed manifest, then exactly one close event. |
| Engine.Session.Close | internal/engine/session.go:514-545 | Refused while a run is active; on success the session is closed with exactly one close fact and close event, and closing again only consumes the ID. |
| Engine.Session.Apply | internal/engine/session.go:389-549 | For every command: its own ID is the first durable effect; a consumed ID is refused without effect, also after restarts; a refusal other than for a failed write or a detected credential consumes nothing; a faulted session stays faulted; a running run's facts are untouched, and its cancel flag rises exactly with a successful cancel. No accepted prompt is matched by a rule, is empty or is longer than 256 KiB, and each refusal is given only for its reason. |
| Engine.Session.Gate | internal/engine/session.go:390-408 | The checks in front of the command's kind, in order: a caller that is gone, an invalid command, another session, a faulted session, an ID consumed before; each refusal if and only if it is the first that applies. |
| Engine.Session.Interfere | internal/engine/session.go:389-549 | While a run's goroutine does not hold the lock others can only consume command IDs, raise the cancel flag, observe and shut down; the run's logs, memory and reservations are untouched. |
| Engine.Session.KeepReserved | internal/engine/session.go:735-777 | Whatever others do between a reservation and the work it is for, the work stays covered. |
| Engine.Session.Watch | internal/engine/session.go:347-379 | Observers join, leave and are served in every state of the session, also after a fault. |
| Engine.Session.BuildRequest | internal/engine/session.go:719-731 | Every request is the given prompts and tools with the messages of the whole memory log, ready for a provider; refused if and only if the estimate exceeds the window. |
| Engine.Session.Reserve | internal/engine/session.go:814-818 | Advances exactly the one counter of the running run, or refuses it exactly at its limit without change; a successful reservation is durable and covers the work it is for. |
| Engine.Session.Begin | internal/engine/session.go:583-586 | Only reserved work starts, and its start is counted. |
| Engine.Session.Tell | internal/engine/session.go:1018-1025 | A running run may publish its own events; nothing else changes. |
| Engine.Session.OnText | internal/engine/session.go:589-600 | A chunk enters the redactor once, and what it lets through becomes one delta event. |
| Engine.Session.CallProvider | internal/engine/session.go:738-744 | For every provider behaviour the redactor has been fed exactly the chunks of this attempt; the provider is asked the given request, whose messages are ready for it, once. |
| Engine.Session.Attempt | internal/engine/session.go:735-744 | An attempt is reserved before it starts and counted once, and the provider is asked the given request; without an attempt the limit of 96 was reached or the reservation could not be written. |
| Engine.Session.CompleteWithRetry | internal/engine/session.go:733-778 | Every attempt asks the same request. All replies but the last are failures of the classes rate limit, transient or overloaded, and behind each a wait succeeded. A success is the last reply; a failure is the last reply if the run is cancelled, its class is another one, or eight waits have been taken, and otherwise it comes from the failed wait behind the last reply or the failed reservation of a next attempt. One retry is announced for every wait but one that failed before it could be, and the attempts started are the replies; on success the redactor has been fed the accepted attempt's chunks only. |
| Engine.Session.TryOnce | internal/engine/session.go:734-751 | One pass of the retry loop: the next attempt, and whether it is the last, is waited for, or could not be made. |
| Turns.CallEnds | internal/engine/session.go:745-751 | A reply that is no failure to be tried again, or is the ninth, or finds the run cancelled, ends the call with that reply. |
| Engine.Session.Backoff | internal/engine/session.go:752-776 | On success exactly this wait has been reserved within ten minutes, exactly one retry event with its number and milliseconds has been published, the wait of the policy (a server's hint up to two minutes, otherwise the jittered backoff) has been started and counted, and the redactor is fresh; on failure at most the announcement was made. |
| Engine.Session.ReserveWait | internal/engine/session.go:764-767 | The wait is reserved ahead and the failed attempt's text is dropped, or nothing but the refusal happens. |
| Engine.Session.Wait | internal/engine/session.go:768-776 | A wait starts only behind its one announcement: at a moment between them the event is durable and nothing of the wait has started; it stays inside its reservation and is counted. |
| Engine.ValidateToolCalls | internal/engine/session.go:1095-1104 | Accepts exactly batches of named calls with IDs, distinct inside the batch, and valid JSON arguments. |
| Engine.Session.AppendToolCalls | internal/engine/session.go:992-1016 | The batch is refused, with nothing written, if and only if one of its calls is not valid as a record; the only other failure is that of a write; on success exactly its calls are pending; and the session stays openable if and only if the logged IDs are distinct and new to the log, or nothing was logged. |
| Engine.Session.ObtainAnswer | internal/engine/session.go:675-692 | Behind a failure a call is answered as skipped, a blocked one as blocked, each with its projected notice; any other is announced, and its answer is the broker's under the cancel flag as it stood at the call. Every content is a projection of at most 64 KiB. |
| Engine.Session.RecordAnswer | internal/engine/session.go:693-703 | The result of the next pending call is logged with the answer's outcome and content, then its finish with the same outcome is published. |
| Engine.Session.AnswerCall | internal/engine/session.go:674-707 | One call of a batch from its answer to the published end, with other goroutines at every release of the lock: the batch stays paired and live, and the logged result is the answer ObtainAnswer describes. |
| Engine.Session.RunTools | internal/engine/session.go:660-707 | When the run survives, the log holds the safe calls of the batch and behind them exactly one result each, in order, with the outcome and the content the broker gave under the cancel flag of that moment, skipped behind the first that did not succeed; the run is marked sensitive if and only if the batch failed first at a blocked call, and the session stays openable if and only if the projected IDs were distinct and new; a call whose projection may not be logged (say redacted arguments that are no longer JSON) writes nothing and faults the session. |
| Engine.Session.QuotedKeyCannotBeLogged | internal/engine/session.go:662-670 | Arguments that quote the beginning of a private key in a JSON object pass the check of the batch, and their projection may not be logged. |
| Agreement.RedactedJsonBreaks | internal/dataproj/projector.go:93-107 | Such a text is no JSON any more once it has been redacted, for every validity test under which an object does not end like an array and no valid text begins with the marker. |
| Engine.Session.Disagrees | internal/engine/session.go:630-634 | The invariant check compares the streamed text with the projected one; when the deltas make up the text, it never fails with line-local rules and no private-key BEGIN marker, always fails when a match reaches over the end of a line, and with the key rule beside local ones fails if and only if a match does that or touches the first key block of a line from outside. |
| Engine.Session.FinishStream | internal/engine/session.go:612-621 | Closing the redactor lets the whole left-to-right pass of the accepted attempt through. |
| Engine.Session.PrepareCall | internal/engine/session.go:573-586 | Goes on only when not cancelled, with the request built from the given prompts, the whole log and the tools, and one more reserved and started logical call; otherwise the run ended: as cancelled, exactly if its flag was up at the top of the loop or rose before it was read; over the context limit, exactly if the estimate exceeds the window; or over budget. |
| Engine.Session.Ask | internal/engine/session.go:587-621 | On success the streamed text is the whole pass over the accepted attempt's chunks; the reply is the one CompleteWithRetry describes, or a failure to publish the tail. |
| Engine.Session.CallModel | internal/engine/session.go:587-629 | Goes on with the provider's last reply to the given request when not cancelled; otherwise the run ended as cancelled, which a raised flag always does, or failed with the cause named for the error: budget, permanent, protocol, transient (rate limit, transient, overloaded), context limit, output limit, or an invariant for anything else. |
| Engine.Session.WriteText | internal/engine/session.go:642-653 | The projected text becomes one record and one event; memory and durable log agree behind it if and only if they did before and the record did not reach the log alone. |
| Engine.Session.RecordText | internal/engine/session.go:630-658 | Records exactly the projected text unless empty or cut for length, and only if the stream agreed with it; a length-cut answer without calls is an output failure; a failed check ends the run in EngineInvariant with nothing recorded, and the check fails under exactly the condition of Disagrees. |
| Engine.Session.Act | internal/engine/session.go:659-715 | An answer without calls completes the run, an invalid batch is a protocol failure, otherwise the batch is logged and answered as RunTools says, and the run goes on only if it was not cancelled and the batch did not fail first at a call blocked for credential material; it ends cancelled only with a raised flag. |
| Engine.Session.RunRound | internal/engine/session.go:573-716 | One round reserves a logical call, asks for it only with the whole history, and adds exactly one round to the conversation that records the provider's answer: its projected text unless cut for length, and its calls as they may be logged; or it ends the run. A raised flag ends it before anything is asked. |
| Engine.Session.Run | internal/engine/session.go:572-717 | Terminates for every provider, tool, command and disk behaviour; unless it faults, the run logged one round after the other, with live outcomes, and then exactly its end, matched by the terminal event; it completes only on an answer without calls, having recorded every answer in its round, and is cancelled only if its flag was raised. |
| Engine.Session.RepairLog | internal/engine/session.go:1070-1076 | A repair record passes through exactly its two durable states, or a first part of them. |
| Engine.Session.RepairEmit | internal/engine/session.go:1085-1087 | A repair event passes through exactly its two durable states, or a first part of them. |
| Engine.Session.AnswerOpenCalls | internal/engine/session.go:1069-1073 | The disk goes through exactly the answers' states in order, or a first part of them. |
| Engine.Session.RepairOutcome | internal/engine/session.go:1058-1077 | Answers and outcome are added only when the run has no outcome; the pairing check cannot fail. |
| Engine.Session.ReconcileInterrupted | internal/engine/session.go:1055-1093 | The disk goes through exactly the states of the reconciliation, or a first part when a write fails; the final transcript check cannot fail. |
| Engine.Session.RepairClose | internal/engine/session.go:277-289 | A half-done close goes through exactly its missing states. |
| Engine.NewSession | internal/engine/session.go:197-292 | The disk goes through exactly the recovery, or a first part when a write fails; the close-fact check cannot fail; the session is then clean and closed exactly if its close fact had been logged. |
| Engine.Session.ObserversSeeDurableFacts | internal/engine/session.go:864-916 | No subscriber there ever was, open or closed, in any state of the session, has received or is being offered an event that is not durable, or a terminal event of a run still active on disk. |
| Loading.CloseFactsConsistent | internal/engine/session.go:257-271 | On every disk the engine can leave, the close facts, close events, closed flag and active run are consistent. |
| Conversations.OneMoreRound | internal/engine/session.go:573-716 | A logged round extends the conversation of the run. |
| Turns.Turn.Write | internal/engine/session.go:589-600 | The streamed text is what the redactor has let through of the chunks fed to it. |
| Turns.Turn.Reset | internal/engine/session.go:601-610 | No byte of a failed attempt survives into the next one. |
| Turns.Turn.Finish | internal/engine/session.go:613-620 | The streamed text is the whole pass over the accepted attempt. |
| Projection.MergeInPlace | internal/dataproj/projector.go:77-87 | The in-place merge leaves exactly the merged intervals in the front of the array. |
| Projection.FindMatches | internal/dataproj/projector.go:63-88 | Collects, sorts and merges the matches of all rules. |
| Projection.MatchesExact | internal/dataproj/projector.go:63-88 | The result is sorted, strictly separated, inside the text, and covers exactly the positions some rule matched. |
| Projection.RawExact | internal/dataproj/projector.go:63-70 | Every rule is asked, and nothing is collected that no rule found. |
| Projection.MatchesDetect | internal/dataproj/projector.go:63-88 | There is something to redact if and only if some rule finds something. |
| Projection.RedactText | internal/dataproj/projector.go:93-107 | The redaction loop computes the redacted text and the number of merged matches. |
| Projection.RedactExact | internal/dataproj/projector.go:93-107 | What is left is exactly the text no rule matched, in order, with one marker per maximal matched stretch, and the count is the number of those stretches; a position counts as matched if and only if some rule covers it. |
| Projection.UntouchedText | internal/dataproj/projector.go:93-97 | Redaction counts no match if and only if no rule finds anything, and then returns the text unchanged. |
| LinePass.ChunkingIrrelevant | internal/dataproj/projector.go:261-287 | For every way of cutting a text into chunks the outputs concatenate to one left-to-right pass over it. |
| LinePass.PassKeepsNewlines | internal/dataproj/projector.go:261-287 | A pass whose line function stays on its line keeps the number of newlines. |
| Stream.LineRedactor.RedactNext | internal/dataproj/projector.go:219-243 | One line, in or outside an open block: what no rule matched in front of the first block, one marker for the block's part of the line, and what no rule matched behind its END; and whether a block is open behind it. |
| Stream.LineShown | internal/dataproj/projector.go:219-243 | The same of the line function the theorems about streams and pages are about. |
| Stream.StreamRedactor.Write | internal/dataproj/projector.go:261-281 | Everything let through so far is the pass over the complete lines of everything written. |
| Stream.StreamRedactor.Close | internal/dataproj/projector.go:283-287 | After closing, everything let through is the whole pass. |
| Stream.ProjectionKeepsNewlines | internal/dataproj/projector.go:219-287 | The projected stream has as many newlines as the raw one. |
| Stream.BlocksTrackedExactly | internal/dataproj/projector.go:219-243 | After every line the redactor knows whether a private-key block is open, if and only if no line leaves a block open that began behind an END closing one on that line. |
| LinePass.PassIsFold | internal/dataproj/projector.go:261-287 | The pass over a text is the redactor folded over its lines: the split text, redacted line by line, joined again. |
| Stream.ReopenedBodyIsEmitted | internal/dataproj/projector.go:221-243 | The failing family, from inside and from outside a block: behind a line that leaves a reopened block open, the next body line goes out as ordinary text. |
| KeyBlocks.ReopenedBlockLeaks | internal/dataproj/projector.go:199-229 | With the program's own markers: in a three-line text whose second block begins behind the END of the first, the last line of what the stream lets through is the body line as it came in, although the block is open. |
| Stream.BodiesNeverEmitted | internal/dataproj/projector.go:204-243 | Two texts that differ only inside private-key blocks come out the same line by line, when no line holds a BEGIN behind an END that closes a block. |
| Stream.PassHidesBodies | internal/dataproj/projector.go:204-287 | Such texts leave a closed stream redactor exactly the same. |
| Stream.StreamHidesBodies | internal/dataproj/projector.go:204-287 | ... in whatever chunks each of them arrives. |
| Hiding.BodiesStayHidden | internal/dataproj/projector.go:204-243 | On all texts the redactor tracks, lines with several blocks included, the output depends only on what lies outside the blocks, when redaction behind a closed block leaves the pieces there and one marker for each block. |
| Hiding.ClearIsMarked | internal/dataproj/projector.go:52-52 | With the key rule beside local ones it does, unless a match touches one of those blocks from outside. |
| Stream.PassIsWholeText | internal/dataproj/projector.go:134-141 | With line-local rules and no BEGIN marker the line-by-line pass is the projection of the whole text. |
| Stream.StreamAgreesWithProjection | internal/engine/session.go:630-634 | Whatever chunks the text arrived in, the streamed text is the projected text, with line-local rules and no BEGIN marker. |
| Stream.CoveredNewlineDisagrees | internal/engine/session.go:630-634 | When a match covers a newline the streamed text is never the projected one, because the stream keeps every newline. |
| KeyBlocks.BlockCoversNewline | internal/dataproj/projector.go:52-52 | A key block over more than one line is such a match. |
| KeyBlocks.QuotedKeyDisagrees | internal/dataproj/projector.go:52-52 | So is that of every text that begins with a BEGIN line, whether the key ends in it or not. |
| Agreement.AgreesExactly | internal/engine/session.go:630-634 | With the key rule beside rules local to lines and to the sides of a key block, the streamed text is the projected one if and only if no match covers the end of a line and none touches the first key block of a line from outside. |
| Agreement.LineExactly | internal/dataproj/projector.go:219-243 | On one line the redactor leaves what the whole-line projection leaves if its first block is untouched, and more otherwise. |
| Agreement.KeyAloneAgrees | internal/dataproj/projector.go:219-243 | A key that is all of a line agrees, whatever matches inside it. |
| Agreement.KeyDetectorIsLineLocal | internal/dataproj/projector.go:52-52 | Such a detector is line-local. |
| AccessKeys.BothRulesLocal | internal/dataproj/projector.go:50-52 | The program's rules for AWS access keys and for private keys make such a detector. |
| AccessKeys.KeysSideBySideDisagree | internal/dataproj/projector.go:50-52 | An access key directly in front of a complete private key on one line: no match covers a newline, and the stream is not the projection. |
| AccessKeys.KeyInsideBlockAgrees | internal/dataproj/projector.go:50-52 | An access key between the markers of a private key overlaps its block, and the stream is the projection. |
| Messages.RecordsToMessages | internal/prompt/assembler.go:92-130 | The nested loops compute messages that say exactly the conversation of the log, word for word and in order: what the user asked, what the assistant said, which tools it called with what arguments, and what each tool returned under which call ID. |
| Messages.MessagesSayConversation | internal/prompt/assembler.go:92-130 | For every log, reading its messages back (a user message as a prompt, an assistant message as a text or as its calls, a tool message as a result) gives exactly the conversational payloads of the log, in order, and every message has only the parts of its role. |
| Messages.MessagesOwePending | internal/prompt/assembler.go:92-130 | The messages of a disciplined log lack exactly the results of its pending calls. |
| Messages.SettledIsReady | internal/prompt/assembler.go:92-130 | Between batches every message with k calls is immediately followed by exactly its k results, in order, and there are no other results. |
| Messages.Build | internal/prompt/assembler.go:49-90 | Refused if and only if the estimate plus the output limit exceeds the window; otherwise the request holds both prompts, the tools and the whole conversation. |
| Messages.AdmissionBounds | internal/prompt/assembler.go:71-89 | What is admitted fits the window at three characters to a token with sixteen tokens for each message and call, the output included; what is refused would not fit with every text rounded up. |
| Messages.CostGrows | internal/prompt/assembler.go:74-88 | The estimate of a log never falls below that of its prefix, so an outgrown session stays refused. |
| Broker.Bound | internal/action/broker.go:170-178 | Keeps a content that fits, otherwise the longest prefix on a character boundary that leaves room for the notice. |
| Broker.BoundKeepsCharacters | internal/action/broker.go:170-178 | For UTF-8 input (section 3 of RFC 3629) the result is at most 64 KiB, valid UTF-8, and wastes at most three bytes. |
| Broker.ActionBroker.ProjectCalls | internal/action/broker.go:88-111 | Every call is projected under a safe identity and marked blocked exactly when its ID, name or arguments hold a match. |
| Broker.ActionBroker.SafeCallExact | internal/action/broker.go:88-111 | Of a name and of arguments exactly the text no rule matched may be logged, with one marker per matched stretch; of an ID some rule matches only its digest; redacted arguments are tested for JSON again; and a call is blocked if and only if some rule finds something in one of the three. |
| Broker.ActionBroker.Project | internal/action/broker.go:168-180 | Identity and outcome are kept; the content is projected and bounded. |
| Broker.ActionBroker.ProjectionFits | internal/action/broker.go:168-180 | A projected content is at most 64 KiB long. |
| Broker.ActionBroker.BlockedResult | internal/action/broker.go:113-118 | A blocked answer under the given ID with the projected, bounded notice. |
| Broker.ActionBroker.SkippedResult | internal/action/broker.go:120-125 | A skipped answer under the given ID with the projected, bounded notice. |
| Broker.ActionBroker.Execute | internal/action/broker.go:129-166 | Exactly one answer under the safe ID, its content projected and bounded: blocked, an error for an unknown tool, cancelled before preparation, or the tool's own. |
| Broker.ActionBroker.ExecuteBatch | internal/action/broker.go:184-199 | One answer per call in order: each executed call is answered by the rule of Execute under the cancellation read when it is reached, the first n succeed, the next does not, and the rest are skips. |
| Reassembly.DecodeStream | internal/provider/openai/adapter.go:301-398 | Unless stopped by its caller it accepts exactly the readable streams within all limits whose calls are complete at indices 0..n-1. What it returns is said by the raw lines up to the stop: the contents of the choices one behind the other, the last finish reason given, and for each index a call with the ID its fragments agree on and their names and arguments one behind the other, within 128 calls, IDs of 1024 and names of 256 characters. |
| Reassembly.LinesSayPieces | internal/provider/openai/adapter.go:340-379 | Nothing a line says is lost or changed on its way into the decoder's pieces: the text is the concatenated contents, the reason the last one given, and the fragments at each index are those that name it, in order. |
| Reassembly.CallIsConcat | internal/provider/openai/adapter.go:370-375 | The name and the arguments of a call are those of its fragments, one behind the other. |
| Reassembly.AddPart | internal/provider/openai/adapter.go:352-375 | A fragment is accepted exactly when its call stays within index, ID, name and argument limits; the builder then holds the call so far. |
| Reassembly.AddChoice | internal/provider/openai/adapter.go:340-379 | Text before fragments before finish reason; an unaccepted choice means a passed limit or a refused delta. |
| Reassembly.RoomForOneMore | internal/provider/openai/adapter.go:357-360 | The test on the number of calls never fires, because the indices are bounded. |
| Reassembly.FinishCalls | internal/provider/openai/adapter.go:390-396 | Accepts exactly when the indices seen are 0..n-1 and every call has an ID, a name and valid JSON arguments. |
| Reassembly.AllSeen | internal/provider/openai/adapter.go:390-391 | As many builders as indices below that number seen: no other index was seen. |
| Reassembly.ReassembledExactly | internal/provider/openai/adapter.go:352-396 | However the calls were cut into fragments and interleaved, exactly those calls come out, in order. |
| Reassembly.TextIsDeltas | internal/provider/openai/adapter.go:341-351 | The returned text is the concatenation of the deltas handed on. |
| Reassembly.StreamLimitExact | internal/provider/openai/adapter.go:408-414 | For every 64-bit output limit the overflow test yields min(4 * limit + 1 MiB, 32 MiB). |
| PagedRead.Execute | internal/tools/tools.go:113-150 | The content is the longest stretch of the window's numbered, projected lines within 1000 lines and 64 KiB, with a hint when something is left; every line up to its end is text, and a failed read is an error for a page that ends with the file. The projection state is that of the whole pass. |
| PagedRead.PagesHideBodies | internal/tools/tools.go:113-150 | Files that differ only inside private-key blocks have the same pages for every request. |
| PagedRead.PagingTerminatesExactly | internal/tools/tools.go:136-149 | Following the start_line hints reaches the end of the file if and only if every entry fits in 64 KiB. |
| PagedRead.LongLineIsNeverShown | internal/tools/tools.go:137-149 | For every one-line file whose projected line has 64 KiB or more, the only page shows nothing and points at itself. |
| PagedRead.PlainLineIsKept | internal/tools/tools.go:129-136 | A line the detector does not match is shown as it is, so such files exist for every detector. |
| PagedRead.PagesAreTheWholePass | internal/tools/tools.go:113-150 | Whoever follows the hints to the end sees every projected line exactly once and in order. |
| PagedRead.HintIsNext | internal/tools/tools.go:147-149 | The hint on a page is the first line the page does not show. |
| PageFormat.PageExactly | internal/tools/tools.go:113-150 | For a reader who knows nothing of how a page is filled: it is a stretch of the requested window from its beginning, at most 1000 lines and 64 KiB and as long as that allows, and a hint that names the first line left can be read from it if and only if some are left. |
| PageFormat.EntryReadsBack | internal/tools/tools.go:136-136 | Whoever reads an entry gets the number of its line, counted from one, and its whole text. |
| PageFormat.HintReadsBack | internal/tools/tools.go:147-149 | The line number in a hint is read back from the page. |
| PageFormat.DecimalDenotes | internal/tools/tools.go:136-149 | The digits written for a number denote it, without a needless zero. |
| PageFormat.EntriesAreNumbered | internal/tools/tools.go:129-136 | Every entry of a file of lines is one line that begins with a digit, whatever the rules find in it. |
| Instructions.ScopeDirs | internal/prompt/instructions.go:101-115 | The root and every directory on the way to the active one. |
| Instructions.NamedExactly | internal/prompt/instructions.go:101-115 | The active directory is made of exactly the path components that are neither empty nor a dot, in order. |
| Instructions.FoundExactly | internal/prompt/instructions.go:49-77 | What is found is the CLAUDE.md and the AGENTS.md of every directory on the way, each under the precedence 10 + 2 * depth, one more for AGENTS.md, and nothing else. |
| Instructions.Discover | internal/prompt/instructions.go:33-99 | One document per distinct content, in strictly increasing precedence, or an error exactly when a file is unreadable or too large. |
| Instructions.AddFile | internal/prompt/instructions.go:78-94 | A repeated content moves to the scope and precedence of the later file and keeps all its sources. |
| Instructions.HighestSourceWins | internal/prompt/instructions.go:80-87 | No file with the document's content has a higher precedence, and the scope is that of the highest. |
| Instructions.SourcesPartition | internal/prompt/instructions.go:51-97 | Every file found is a source of exactly one document. |
| Instructions.SortedCatalogue | internal/prompt/instructions.go:97-98 | Sorting keeps the documents and makes their precedence strictly increasing. |

## Left out

- File-system mechanics: a log append either leaves nothing or whole records, and the model's error paths of an append are "nothing written" and "log written, manifest not". A partial last line is refused by the loader and not modelled, nor is the 4 MiB line limit of the log scanner.
- Store.Create: the first manifest is the initial state of every life.
- JSON, timestamps, session IDs, workspace and provider bindings, credentials, settings and the CLI: not part of this model. A raw JSON text carries the answer of the validity test.
- A session without a durable store: only its in-memory budget is modelled.
- Snapshot contents of Observe, the partial assistant text, the active tool and WaitIdle: they have no durable effect. Of Shutdown only the cancelled run and the closed observers are modelled.
- Regular expressions and SHA-256: arbitrary functions; no assumption that digests of different contents differ is needed.
- The match counts that LineRedactor.Redact returns beside the text: no modelled caller uses them.
- The failure class that a retry event names beside its number and its wait.
- Token usage in provider responses and the HTTP transport, status classification and request encoding of the adapter.
- The text of the stable and dynamic prompt sections, and a session without an assembler: parameters of the request.
- Engine.Session.CallProvider: a provider call returns; that an implementation honours cancellation is not modelled.
- Engine.Session.Run: individual provider, tool and sleep calls are taken to return.
- PagedRead.Execute: protected paths, file access and the broker's own 64 KiB cut behind the page are not modelled.
- Instructions.Discover: cancellation and path cleaning are not modelled; the active path comes as its components.
- The list and search tools: they walk the workspace and print paths or matching lines, cut at 64 KiB; the walk is file access, which is not part of this model.
- `internal/benchmark`, `cmd` and `testdata`: the benchmark harness, the command-line programs and the fixtures; they hold no session state.
