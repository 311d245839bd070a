# Walaru, modelled and proved

Walaru records and replays JVM tests, verifies a workspace incrementally, and mirrors unsaved editor
buffers so that they can be tested before they are saved. Most of its code is plumbing; its promises
rest on a few stateful protocols that hold only over whole runs. This project models those protocols
in Dafny 4.11 and proves what they promise, for every input, every interleaving or every history.

| file | what it models |
|---|---|
| `ReplayScheduler.dfy`, `InputTape.dfy` | the two monitors of the replaying agent, as classes |
| `ReplayProtocol.dfy`, `ReplayObjects.dfy` | any number of threads interleaving over both monitors, with every failure; the classes follow every run |
| `ReplayProgress.dfy` | when scheduler and tape monitor cannot deadlock, exactly |
| `ReplayFidelity.dfy` | a recording followed by a replay: each thread reads back its own inputs |
| `ReplayText.dfy`, `EventKinds.dfy`, `Utf8.dfy` | the tape and schedule files, written by Rust, read by Rust and Java |
| `Capabilities.dfy`, `Boundaries.dfy` | when a recording may claim to be complete |
| `InputCounts.dfy`, `Counting.dfy` | why matching totals mean that every counted call was recorded |
| `CompleteRecordings.dfy` | why every recording the replay checks accept is faithful to replay |
| `Supersede.dfy` | the daemon's generation, gate and active-token protocol |
| `Incremental.dfy` | change detection, impact selection and the success cache |
| `OverlayMirror.dfy`, `MirrorHistories.dfy` | the crash- and cancel-safe mirror, operation by operation and over whole histories |
| `Store.dfy`, `Tables.dfy`, `Pagination.dfy` | the tables, retention, and byte-bounded pages |
| `RunLifecycle.dfy`, `CacheOrder.dfy` | a verification's control flow with all its exits; which cached revisions pruning drops |
| `LiveScheduler.dfy` | the editor's debounce, abort, pause and dispose machine |
| `StateHash.dfy`, `FieldMask.dfy` | the canonical state encoding and the field-mask projection |
| `Options.dfy` | values that may be absent |

A protocol of many threads or requests is a transition system whose runs are sequences of steps; an
object that updates its fields is a class whose methods are proved against functions of its state; a
loop is a loop with invariants. Wherever a natural property is false of the code, the exact condition
is proved together with a witness of the failure.

What was found to be false, and the exact statement that holds instead:

- An input read after a scheduler failure need not be the recorded one. It is the entry shifted by the
  number of entries lost before it (`InputAlignment`; witness `LossShiftsInputs`). An announced input
  whose event could not be written is never returned; it shifts the numbering of the finished reads by
  one, but not the entries they return (`InputAlignment`; witness `DropShiftsReads`).
- Scheduler and tape monitor can deadlock until the scheduler's time-out. They cannot if and only if no
  other thread's INPUT lies between an INPUT and its own thread's preceding event (`ProgressIffWindow`);
  a deadlock, once reached, lasts (`DeadlockForever`).
- The newest superseding request can be cancelled by an older one, because the cancel step carries no
  generation (`NewestCanBeCancelled`). For a request about to install its token this can happen if and
  only if some bumper is at that moment between its increment and its cancel step
  (`NewestSurvivesExactly`).
- A verification that has returned its outcome, with no bump since it started and no bumper under way, need
  not be answered with it: its token may already be cancelled (`QuietButCancelled`). It still can be if and
  only if its token is not cancelled and nobody has bumped the generation since it started
  (`CanStillBeReal`).
- The daemon takes a thread key for unnamed not only when the thread has no name: a thread may be called
  `<unnamed>`, or end in `:<unnamed>` (`UnnamedExactly`). Two threads share a key if and only if they are of
  one kind and have the same name or none (`KeysTellThreadsApart`).
- A carriage return alone ends a line of the tape for Java but not for Rust (`LoneReturn`); line endings of
  a carriage return and a line feed are read alike (`LinesOfCrLf`).
- The success cache is not sound over every history: a failed run also replaces dependency rows
  (`FailedRunsBreakTheCache`), and so does a passing explicit one (`PassingRunsBreakTheCache`). From a
  passing baseline a selection can be trusted if and only if the rows cover the baseline
  (`TrustworthyIffCovered`). Over every history a cached revision is sound unless its row came from a
  run during which an edit was made and undone or from a selection made while rows were tainted
  (`CachedMeansAllPass`), and always over healthy histories.
- A schedule names what the replaying agent will announce for every event type except those the daemon
  does not know, CAPABILITY among them (`CategoryAgrees`).
- A successful overlay preparation need not leave a full copy. The request check lets a document name
  with a "." segment through; its spelling is remembered, and the next preparation without it deletes
  the input it has just copied (`AliasDeletesInput`). A preparation leaves a full copy if and only if
  documents that lead to one file agree and no stale name leads to an input that no document replaces
  (`FullCopyIff`); always, if document names have no "." segments (`PlainHistoriesAreFullCopies`), as
  the editor client ensures.
- Flushing the live scheduler while a run is live puts two live runs in flight; flushing otherwise
  never does (`Flush`). A result whose callbacks throw is reported again as an error, and only such a
  one is reported twice (`LiveHistory`).

`dafny verify dfyconfig.toml` checks everything.

## Model

| member | source | states |
|---|---|---|
| ReplayScheduler.Scheduler.Before | jvm-agent/src/main/java/io/github/p4suta/walaru/agent/ReplayScheduler.java:52-78 | One wake-up of the wait loop, case by case: while entries remain the caller waits exactly if somebody is writing or the next entry has another thread's key; then it passes exactly if the entry is its own category and key, and is rejected otherwise; an exhausted schedule rejects everyone; `writing` is set exactly by passing |
| ReplayScheduler.Scheduler.After | jvm-agent/src/main/java/io/github/p4suta/walaru/agent/ReplayScheduler.java:80-85 | Advances the cursor by one and ends writing; does nothing without a schedule |
| ReplayScheduler.KeysTellThreadsApart | jvm-agent/src/main/java/io/github/p4suta/walaru/agent/ReplayScheduler.java:46-50 | Two threads have one key if and only if they are of one kind and have the same name, or both have none |
| InputTape.Tape.Take | jvm-agent/src/main/java/io/github/p4suta/walaru/agent/InputTape.java:70-78 | The value and kind of the entry at the cursor, an exception for another kind with the entry already consumed, or an ended tape with the cursor unmoved |
| InputTape.Tape.Append | jvm-agent/src/main/java/io/github/p4suta/walaru/agent/InputTape.java:113-124 | One entry is added at the end of the tape |
| ReplayProtocol.SchedulerStep | jvm-agent/src/main/java/io/github/p4suta/walaru/agent/ReplayScheduler.java:52-85 | Every step of every thread, failures included, keeps mutual exclusion and the admitted prefix of the schedule |
| ReplayProtocol.HolderStep | jvm-agent/src/main/java/io/github/p4suta/walaru/agent/InputTape.java:70-111 | A thread is at an INPUT event exactly while it holds the tape monitor, and then its entry is the one just behind the tape cursor |
| ReplayProtocol.TapeStep | jvm-agent/src/main/java/io/github/p4suta/walaru/agent/AgentBridge.java:674-687 | Every entry behind the tape cursor was announced, was lost to a failure, or is the one being held; every announced input was returned, was dropped because its event could not be written, or is being written |
| ReplayProtocol.RunInv | jvm-agent/src/main/java/io/github/p4suta/walaru/agent/AgentBridge.java:787-812 | The three invariants hold in every reachable state, the failing event write of the bracket included |
| ReplayProtocol.ScheduleSafety | jvm-agent/src/main/java/io/github/p4suta/walaru/agent/ReplayScheduler.java:52-92 | In every run, time-outs and mismatches included, at most one thread is between `before` and `after`, and the admitted (category, key) sequence is the schedule up to the cursor, plus one entry while writing |
| ReplayProtocol.WaitersWaitTheirTurn | jvm-agent/src/main/java/io/github/p4suta/walaru/agent/ReplayScheduler.java:52-78 | In every state of every run a waiting thread can be admitted exactly at its own recorded event with nobody writing, is refused exactly at its own turn for another category or after the end of the schedule, and otherwise can only wait |
| ReplayProtocol.InputAlignment | jvm-agent/src/main/java/io/github/p4suta/walaru/agent/InputTape.java:70-111 | In every run the i-th finished read is that of the scheduled INPUT number n, which is i plus the announced inputs dropped before it; it belongs to the thread named there and returns entry n plus the number of entries lost before it |
| ReplayProtocol.InputsInTapeOrder | jvm-agent/src/main/java/io/github/p4suta/walaru/agent/InputTape.java:70-111 | In every run, whatever fails in it, entries are returned in tape order and none twice |
| ReplayProtocol.LossShiftsInputs | jvm-agent/src/main/java/io/github/p4suta/walaru/agent/InputTape.java:73-78 | Witness: after a time-out in the scheduler a thread is handed another thread's value |
| ReplayProtocol.DropShiftsReads | jvm-agent/src/main/java/io/github/p4suta/walaru/agent/EventWriter.java:26-41 | Witness: the first scheduled INPUT is announced but its event cannot be written, and the first read that finishes is the second thread's, with its own value |
| ReplayObjects.Drive | jvm-agent/src/main/java/io/github/p4suta/walaru/agent/ReplayScheduler.java:52-85 | Calling the scheduler and tape objects in the order of any run of the protocol gives the replies its steps stand for, a read the value of its entry, and leaves the protocol's cursor, `writing` and tape cursor |
| ReplayProgress.FaithfulInv | jvm-agent/src/main/java/io/github/p4suta/walaru/agent/ReplayScheduler.java:52-85 | In every run of threads that follow the recorded plan, what was admitted is a prefix of the plan and a waiting thread waits for its first operation not yet admitted |
| ReplayProgress.NobodyIsRefused | jvm-agent/src/main/java/io/github/p4suta/walaru/agent/ReplayScheduler.java:56-76 | In every state of every faithful run no waiting thread can be refused, and it can be admitted exactly if the plan names it at the cursor and nobody is writing |
| ReplayProgress.ProgressIffWindow | jvm-agent/src/main/java/io/github/p4suta/walaru/agent/InputTape.java:70-111 | For every plan: in every reachable state the thread named at the cursor can step and nobody is handed an entry of another kind, if and only if no other thread's INPUT lies between an INPUT and its thread's preceding operation |
| ReplayProgress.BrokenWindowHurts | jvm-agent/src/main/java/io/github/p4suta/walaru/agent/InputTape.java:70-78 | Wherever the window is broken there is a run to a wrong-kind read or to a state in which the thread at the cursor cannot step |
| ReplayProgress.StuckIsDeadlock | jvm-agent/src/main/java/io/github/p4suta/walaru/agent/ReplayScheduler.java:56-67 | The only way for scheduler and tape monitor to be stuck: the thread at the cursor wants the tape, and another thread holds it while waiting for a later turn |
| ReplayProgress.DeadlockForever | jvm-agent/src/main/java/io/github/p4suta/walaru/agent/ReplayScheduler.java:56-67 | Such a deadlock lasts under every continuation without a failure step |
| ReplayProgress.ReplayCompletes | jvm-agent/src/main/java/io/github/p4suta/walaru/agent/ReplayScheduler.java:52-85 | With the window, every faithful run of threads that wait for scheduler and tape only extends to one that replays the whole plan and delivers every tape entry |
| ReplayFidelity.TapeFollowsEvents | jvm-agent/src/main/java/io/github/p4suta/walaru/agent/InputTape.java:80-86 | In every recording there are as many tape entries as INPUT events plus entries never announced plus one being announced; with none never announced, the k-th entry and the k-th INPUT event come from the same call |
| ReplayFidelity.ScheduledInputs | crates/walaru-daemon/src/verifier.rs:2019-2049 | The schedule's INPUT entries are the recording's INPUT events, with their threads' keys, in order |
| ReplayFidelity.InputFidelity | jvm-agent/src/main/java/io/github/p4suta/walaru/agent/InputTape.java:70-111 | For every recording whose entries were all announced, every prefix of its schedule and every interleaving of its replay without lost entries, each finished read returns an entry recorded under the reader's key, in tape order; if no announced input was dropped the i-th read returns the i-th entry, so each thread key reads back a prefix of what it recorded |
| Utf8.DecodeEncode | crates/walaru-daemon/src/verifier.rs:2044-2044 | UTF-8 decoding undoes encoding for every text |
| Utf8.ParseHexOfHex | crates/walaru-daemon/src/verifier.rs:2044-2044 | Written hexadecimal text has two lower-case digits for each byte, and parsing it gives the bytes back, for every byte sequence |
| ReplayText.LinesOfJoin | jvm-agent/src/main/java/io/github/p4suta/walaru/agent/InputTape.java:59-68 | Rust's and Java's different notions of a line both read back the lines that were written |
| ReplayText.LinesOfCrLf | crates/walaru-daemon/src/verifier.rs:1971-1980 | Both languages also read lines that end in a carriage return and a line feed, and a last line without an ending, alike |
| ReplayText.LoneReturn | jvm-agent/src/main/java/io/github/p4suta/walaru/agent/InputTape.java:59-62 | A carriage return alone ends a line for Java and not for Rust |
| ReplayText.WriteReplayInputs | crates/walaru-daemon/src/verifier.rs:1941-1969 | One line for each entry of the tape, or of the INPUT events when there is no tape; an error exactly when some entry is not valid |
| ReplayText.RecordedInputs | crates/walaru-daemon/src/verifier.rs:1971-2010 | Reads every non-empty line as a valid entry, and fails exactly when that is impossible |
| ReplayText.ReplayTape | jvm-agent/src/main/java/io/github/p4suta/walaru/agent/InputTape.java:59-68 | Reads every line that is not blank as kind and payload, and fails exactly when some such line has no tab |
| ReplayText.ReadsOnce | crates/walaru-daemon/src/verifier.rs:1980-1982 | Lines can be read as entries in one way only |
| ReplayText.ValidExactly | crates/walaru-daemon/src/verifier.rs:1994-2010 | An entry is valid exactly if its kind is not empty and has no tab or line ending, and its payload is not empty and has base64 characters only |
| ReplayText.WrittenTapeReads | crates/walaru-daemon/src/verifier.rs:1994-2010 | A written tape reads back to the same entries in both languages |
| ReplayText.CarryTape | crates/walaru-daemon/src/verifier.rs:1941-2010 | From the recording agent through the daemon to the replaying agent, entries arrive unchanged if and only if each has a non-empty kind without tabs and line endings and a non-empty base64 payload |
| ReplayText.WriteReplaySchedule | crates/walaru-daemon/src/verifier.rs:2019-2049 | One line for each event with a thread key, and the reply says whether there is any |
| ReplayText.ParseSchedule | jvm-agent/src/main/java/io/github/p4suta/walaru/agent/ReplayScheduler.java:24-40 | Parses every line that is not blank, and fails exactly when one does not parse |
| ReplayText.CarrySchedule | jvm-agent/src/main/java/io/github/p4suta/walaru/agent/ReplayScheduler.java:24-40 | The agent parses exactly the (category, thread key) entries the daemon meant, for every recording |
| ReplayText.CategoryAgrees | crates/walaru-daemon/src/verifier.rs:1818-1836 | The scheduled category of an event type is the one the agent announces if and only if the daemon knows the type (or it is OUTPUT) |
| ReplayText.ScheduleAnnounces | jvm-agent/src/main/java/io/github/p4suta/walaru/agent/ReplayScheduler.java:87-92 | Entry i of the schedule that reaches the agent is what it announces at event i, exactly when that event's type is known |
| ReplayText.CarryRecording | crates/walaru-daemon/src/verifier.rs:767-790 | A recording keeps the first page of its events (100,000 of them and 64 MiB at most) and its whole tape: what reaches the replaying agent is the schedule of the kept events, a prefix of the recording's, all of it exactly when the events fit the page, and the tape exactly when its entries are valid; these are the premises of input fidelity |
| Boundaries.RewrittenIsCounted | jvm-agent/src/main/java/io/github/p4suta/walaru/agent/BytecodeInstrumenter.java:182-304 | Every call site rewritten to the tape is one the daemon counts, file reads as file calls and the others as nondeterministic calls, never both |
| Boundaries.RewrittenExactly | jvm-agent/src/main/java/io/github/p4suta/walaru/agent/BytecodeInstrumenter.java:182-304 | Which call sites are rewritten, as a list: file reads when captured, clocks, random UUIDs, the three `now` calls and the plain draws of three generators; every other site is left alone |
| Capabilities.StableIffSizes | crates/walaru-daemon/src/verifier.rs:1360-1368 | The three sizes the daemon compares are equal, without a conflict, exactly when thread ids and non-empty named keys are in bijection |
| Capabilities.DeniedExactly | crates/walaru-daemon/src/verifier.rs:2087-2170 | A stream loses a capability if and only if it holds an event that reports it as denied or a call on the list of boundaries, and through nothing else |
| Capabilities.BoundariesShow | crates/walaru-daemon/src/verifier.rs:2087-2152 | A stream with a call that starts a process, reads the environment or a system property, loads native code, or does I/O other than reading a whole file lacks that capability, whatever else it holds |
| Capabilities.NondeterminismShows | crates/walaru-daemon/src/verifier.rs:2154-2170 | A stream with a clock, UUID or random call and no recorded input lacks nondeterminism |
| Capabilities.ReportsShow | crates/walaru-daemon/src/verifier.rs:1316-1329 | What a worker reports as denied is missing, also `io` and `nondeterminism` if no input was recorded |
| Capabilities.Classify | crates/walaru-daemon/src/verifier.rs:1263-1329 | One event moves exactly the counters and denials its type, target and payload call for |
| Capabilities.ClassifyCall | crates/walaru-daemon/src/verifier.rs:2087-2170 | The counters and the capabilities one CALL event takes away |
| Capabilities.Read | crates/walaru-daemon/src/verifier.rs:1081-1105 | After the loop the counters are the numbers of matching events of the stream, and the threads are scheduled exactly when there are several and they are stable; a stream over the limit is refused |
| Capabilities.Conclude | crates/walaru-daemon/src/verifier.rs:1369-1451 | The unavailable capabilities and the supported names the replay checks read |
| Capabilities.Ingest | crates/walaru-core/src/replay.rs:600-641 | Honest completeness: for every stream the manifest is complete exactly when no capability is missing from the stream and exactly when the replay checks accept it; complete with several threads implies stable threads; a missing stream is never complete |
| InputCounts.RunKeepsInv | jvm-agent/src/main/java/io/github/p4suta/walaru/agent/BytecodeInstrumenter.java:182-198 | In every full-mode run, with calls nested to any depth inside the tape's value suppliers, each INPUT answers its own earlier counted CALL of the same thread and kind |
| InputCounts.MatchingTotals | crates/walaru-daemon/src/verifier.rs:1377-1385 | For every full-mode stream inputs never outnumber counted calls, and the totals match if and only if every counted call was recorded, for nondeterministic and for file calls |
| InputCounts.CompleteMeansRecorded | crates/walaru-daemon/src/verifier.rs:1263-1285 | A full-mode recording that lacks no capability has an own input for every nondeterministic and supported file call, and no other I/O call |
| InputCounts.CompleteMeansNothingAbandoned | crates/walaru-daemon/src/verifier.rs:1377-1385 | In a full-mode recording that lacks no capability no rewritten call ended without its input |
| InputCounts.CompleteMeansRewritten | crates/walaru-daemon/src/verifier.rs:1377-1385 | In a full-mode recording that lacks no capability every nondeterministic or I/O call was made at a rewritten site |
| CompleteRecordings.AcceptedRecordingsAreFaithful | crates/walaru-core/src/replay.rs:600-641 | Of every recording whose stream lacks no capability: no tape entry was left unannounced, so in every replay without lost entries each finished read returns an entry recorded under the reader's key, in tape order, and a prefix of them if no announced input was dropped |
| CompleteRecordings.UnnamedExactly | crates/walaru-daemon/src/verifier.rs:1360-1368 | The keys the daemon takes for unnamed, exactly: of threads without a name or called by the text for one, and of threads whose name ends like such a key |
| Supersede.RunInv | crates/walaru-daemon/src/server.rs:507-574 | The gate has one holder whose token is in the slot, and the cancellation invariants hold, in every reachable state |
| Supersede.NoLostCancellation | crates/walaru-daemon/src/server.rs:507-533 | In every reachable state a verification past its recheck with an outdated generation has a cancelled token, or some bumper is between its increment and its cancel step |
| Supersede.OneAtATime | crates/walaru-daemon/src/server.rs:515-533 | At most one request is inside the gate, the slot names it from installing its token to clearing it; at every other time the slot is empty or was left by a request whose artifact discovery failed before the requeue |
| Supersede.GenerationsCountBumps | crates/walaru-daemon/src/server.rs:507-513 | The generation is the number of bumps so far, and a request carries the number at its start |
| Supersede.RealIffUndisturbed | crates/walaru-daemon/src/server.rs:568-574 | The final check gives a real outcome if and only if nobody has bumped the generation since the request started, and says superseded otherwise |
| Supersede.ChecksCatchBumps | crates/walaru-daemon/src/server.rs:519-533 | On entering the gate a request goes on if and only if nobody has bumped since it started; a bump before the second check cancels its token |
| Supersede.TokenDecides | crates/walaru-daemon/src/server.rs:568-573 | Reading the token leads on to the final check if and only if the token is not cancelled at that moment; if it is, the reply is superseded whatever follows |
| Supersede.CanStillBeReal | crates/walaru-daemon/src/server.rs:568-574 | A verification that has returned an outcome can still be answered with it if and only if its token is not cancelled and nobody has bumped since it started |
| Supersede.NewRequestGetsThrough | crates/walaru-daemon/src/server.rs:507-574 | From every reachable state with a free gate a new request, superseding or not, can be answered with its outcome |
| Supersede.FailedExactly | crates/walaru-daemon/src/server.rs:534-567 | A request fails if and only if its verification ended in an error |
| Supersede.SupersededMeansDisturbed | crates/walaru-daemon/src/server.rs:519-574 | A request is told it was superseded only if its token was cancelled or somebody bumped after it started |
| Supersede.QuietButCancelled | crates/walaru-daemon/src/server.rs:568-573 | Witness: an outcome returned with no bump since the start and no bumper under way that can only be answered as superseded |
| Supersede.RealMeansUndisturbed | crates/walaru-daemon/src/server.rs:507-574 | A reply with a real outcome had no bump between reading its generation and its final check |
| Supersede.RealOutcomesAreOrdered | crates/walaru-daemon/src/server.rs:507-574 | Of two superseding requests with real replies one made its final check before the other's bump |
| Supersede.NewestCanBeCancelled | crates/walaru-daemon/src/server.rs:630-641 | Witness: a delayed older superseder cancels the newest running verification |
| Supersede.NewestSurvivesExactly | crates/walaru-daemon/src/server.rs:507-533 | For a request that is up to date and about to install its token: it can go on to be cancelled while still the newest if and only if some bumper is at that moment between its increment and its cancel step |
| Incremental.ImpactedTests | crates/walaru-daemon/src/verifier.rs:604-646 | The loop over changed paths selects exactly the tests that depend on one, or all tests when a change cannot be followed |
| Incremental.SourcesOfModules | crates/walaru-daemon/src/verifier.rs:2172-2182 | Java and Kotlin files below `src/main/` of the workspace or of any module in it are implementation sources |
| Incremental.Verifier.Run | crates/walaru-daemon/src/verifier.rs:383-432 | The cache answers exactly default requests for a cached revision, and then nothing changes; a full run replaces the rows of all tests and an explicit one those of exactly the named tests that exist; a run passes only with a passing test and all it asked for; only passing default runs change cache and manifests |
| Incremental.ImpactIsSound | crates/walaru-core/src/store.rs:903-927 | From a passing baseline whose rows are its footprints, a passing run of the selected tests means every test passes, and leaves the rows aligned with the new revision |
| Incremental.FullIsSound | crates/walaru-daemon/src/verifier.rs:380-432 | On every store, whatever its rows, a full run rewrites the rows of exactly all tests, leaves them aligned with the revision, and passes only if all tests pass |
| Incremental.SinceIsSound | crates/walaru-daemon/src/verifier.rs:413-432 | A passing run against a given earlier revision means all tests pass, if they pass there and the rows cover it |
| Incremental.ImpactRunsExactly | crates/walaru-daemon/src/verifier.rs:604-646 | The tests executed against a baseline, one by one: those with a row on a changed path, or all if a change cannot be followed; a default run takes the newest cached revision as baseline |
| Incremental.PassedIsCached | crates/walaru-daemon/src/verifier.rs:586-600 | A passing default verification is answered from the cache when asked again; a revision that was not cached before becomes the newest cached one |
| Incremental.HistoryInv | crates/walaru-daemon/src/verifier.rs:586-600 | The soundness invariant holds after every history of verifications of every kind, runs during which an edit was made and undone, disturbed runs and pruning |
| Incremental.CachedMeansAllPass | crates/walaru-core/src/store.rs:835-844 | Over every history, a cached revision that is not suspect is one where running all tests would pass |
| Incremental.TrustworthyIffCovered | crates/walaru-daemon/src/verifier.rs:604-646 | Exactly when a selection can be trusted: from a passing baseline, every project that looks the same there under the daemon's surface function is verified soundly if and only if each path that can change unseen by its surface and be followed is in the row of every test that reads it |
| Incremental.HealthyHistoriesAreSound | crates/walaru-daemon/src/verifier.rs:383-432 | Over every history of default verifications whose executed runs pass, every cached revision is one where running all tests would pass |
| Incremental.FailedRunsBreakTheCache | crates/walaru-daemon/src/verifier.rs:1332-1359 | Witness: one failed run in between, and a revision with a failing test is cached |
| Incremental.CacheIsNotSound | crates/walaru-daemon/src/verifier.rs:1332-1359 | There are a lawful project, under real source paths, and a history after which a revision with a failing test is cached |
| Incremental.PassingRunsBreakTheCache | crates/walaru-daemon/src/verifier.rs:1332-1359 | Witness: every run passes, one of them explicit at another revision, and a revision with a failing test is cached |
| OverlayMirror.Session.DestinationMatches | crates/walaru-daemon/src/overlay.rs:452-476 | A match means a regular file with the source's time or the source's content, and a file with the source's content always matches |
| OverlayMirror.Session.CopyInput | crates/walaru-daemon/src/overlay.rs:493-523 | When it completes the path holds the source's content; cut anywhere, no other path is touched |
| OverlayMirror.Session.MirrorFile | crates/walaru-daemon/src/overlay.rs:428-450 | Reused or copied, the path then holds the source's content; a copy known to be good is not touched |
| OverlayMirror.Session.MirrorInputs | crates/walaru-daemon/src/overlay.rs:289-338 | After the walk every input holds its source's content, copies known to be good are untouched, and nothing else changed |
| OverlayMirror.Session.Open | crates/walaru-daemon/src/overlay.rs:136-165 | Up to the marker: without a usable manifest the mirror is emptied, and at whatever point it is cut the session stays trustworthy and shows the marker, an empty mirror, or itself with some files gone |
| OverlayMirror.Session.Prepare | crates/walaru-daemon/src/overlay.rs:136-217 | What becomes of every file in a preparation that succeeds, and that it is a full copy over the generated files exactly if documents that lead to one file agree and no stale name leads to an input; a preparation that is cut leaves the marker, an empty mirror, or the session with some files gone, so that the next can build on it; one that is not cut succeeds unless its manifest is too large |
| OverlayMirror.FullCopyIff | crates/walaru-daemon/src/overlay.rs:189-213 | Exactly when the steps of a preparation add up to a plain full copy: documents that lead to one file agree, and no stale name leads to an input that no document replaces |
| OverlayMirror.AliasDeletesInput | crates/walaru-daemon/src/overlay.rs:197-203 | Witness: one document under a name with a "." segment, then none; both preparations succeed and the second deletes an input it has just copied |
| OverlayMirror.MirrorHistory | crates/walaru-daemon/src/overlay.rs:566-611 | Over every history of edits, work in the mirror, preparations, cancellations and crashes at any operation, every successful preparation does exactly this, and one fails only if it is interrupted or its manifest is too large |
| OverlayMirror.PlainHistoriesAreFullCopies | crates/walaru-daemon/src/overlay.rs:269-287 | In every such history whose document names have no "." segments, every successful preparation leaves exactly a full copy over the generated files |
| MirrorHistories.NothingIsLeftBehind | crates/walaru-daemon/src/overlay.rs:190-213 | Over every history: a file that was an input or a document in a successful preparation, is neither now and was not written since is absent after the next successful preparation, whatever failed in between |
| MirrorHistories.GeneratedFilesSurvive | crates/walaru-daemon/src/overlay.rs:136-217 | Over every history: while preparations succeed, a file none of them supplies and nobody writes stays as it is |
| MirrorHistories.UnchangedInputsAreReused | crates/walaru-daemon/src/overlay.rs:428-476 | An input unchanged between two successful preparations is not copied again: its file stays as it is, time included |
| Store.SizePassFits | crates/walaru-core/src/store.rs:966-1018 | On every store that satisfies its foreign keys the size pass ends with the payload within the bound and keeps the keys |
| Store.SizePassIsShortest | crates/walaru-core/src/store.rs:966-1018 | It removes an oldest-first prefix of runs, recordings and manifests, and every oldest-first prefix that suffices extends it |
| Store.RemoveIsExact | crates/walaru-core/src/store.rs:982-1013 | Removing an item removes its own rows, cascades to the events and cache rows of a removed run, and touches nothing else |
| Store.AgePassIsExact | crates/walaru-core/src/store.rs:966-981 | The age pass keeps exactly the runs, recordings and manifests not older than the cutoff, and the events and cache rows of kept runs |
| Store.PayloadCountsRows | crates/walaru-core/src/store.rs:1031-1043 | The payload counts every byte of events, recordings, cached outcomes and manifests |
| Store.Database.Prune | crates/walaru-core/src/store.rs:966-1043 | Age pass, then the size pass; the payload ends within the bound and the reply counts what was removed |
| Store.Database.Open | crates/walaru-core/src/store.rs:342-366 | After recovery runs that were Running are Error, every other row is as it was, and nothing else changed |
| Store.Database.BeginRun | crates/walaru-core/src/store.rs:376-388 | Inserts a Running run unless its id exists |
| Store.Database.FinishRun | crates/walaru-core/src/store.rs:391-413 | A run ends as desired if the revision is still its own and Stale otherwise, whatever was desired, in the reply and in the table; other runs keep their rows; a run that is gone is an error that changes nothing |
| RunLifecycle.HistoryKeeps | crates/walaru-daemon/src/verifier.rs:468-600 | Foreign keys, unique runs, and the status each control point expects hold after every interleaving of verifications, other writes, pruning and crashes |
| RunLifecycle.StoreHistories | crates/walaru-daemon/src/verifier.rs:475-558 | Over every history, through all five early exits: the run of a verification that has returned is gone or has the status the reply told, Error for an early exit, and is never Running; a run is Running exactly up to the call that closes it; a run passed or failed only if the revision found after it is its own, and is Stale only if it is another; every cached row names an existing run that passed at the row's revision |
| RunLifecycle.OnlyDefaultsAreCached | crates/walaru-daemon/src/verifier.rs:586-600 | Over every history each cached row and each revision manifest was saved by a default verification, for the revision it started from and found again afterwards |
| RunLifecycle.ReopenedMeansClosed | crates/walaru-core/src/store.rs:342-366 | After every history, a crash and a reopen make every run that was open an Error and leave every other run as it was |
| CacheOrder.PruneDropsOldest | crates/walaru-core/src/store.rs:966-1013 | Where cached runs started in the order of their cache rows, pruning by age and size drops a prefix of the cache rows, the oldest, and no others |
| CacheOrder.HistoriesInTurn | crates/walaru-core/src/store.rs:804-817 | Over every history in which verifications cache in the order in which their runs started, each pruning does so |
| CacheOrder.OneAtATimeDropsOldest | crates/walaru-daemon/src/server.rs:515-533 | Verifications that run one at a time, with start times that do not decrease, cache in that order, so each pruning after any such history drops the oldest cached revisions and no others |
| Pagination.FillPage | crates/walaru-core/src/store.rs:530-554 | The loop keeps the longest prefix the limit and the byte bound allow, at least one row, and says whether rows remain |
| Pagination.QueryMembers | crates/walaru-core/src/store.rs:525-529 | The rows of a query are exactly those of the asked test, or of any, with a sequence after the cursor |
| Pagination.EventsMatching | crates/walaru-core/src/store.rs:510-554 | A page is such a prefix of the events after the cursor, with a cursor at its last event exactly when more remain |
| Pagination.QueryAfter | crates/walaru-core/src/store.rs:515-529 | Asking from the k-th match gives exactly the matches after it |
| Pagination.FollowCursors | crates/walaru-core/src/store.rs:510-554 | For every limit of at least one and every byte bound, following cursors visits each event of the asked test after the start exactly once, in order; every page is non-empty, and exceeds the byte bound only with a single event |
| LiveScheduler.Scheduler.Schedule | clients/vscode/live.js:33-49 | The snapshot becomes the pending one under a new generation, every run is aborted, and a timer is set unless paused; nothing changes after disposal |
| LiveScheduler.Scheduler.Flush | clients/vscode/live.js:51-55 | Starts the pending snapshot; two live runs result if and only if one was live before |
| LiveScheduler.Scheduler.Pause | clients/vscode/live.js:57-65 | No run is live and no timer is set, and the pending snapshot is kept |
| LiveScheduler.Scheduler.Resume | clients/vscode/live.js:67-72 | A pending snapshot is scheduled again, unchanged |
| LiveScheduler.Scheduler.Dispose | clients/vscode/live.js:82-86 | No run is live and no timer is set |
| LiveScheduler.Scheduler.FireTimer | clients/vscode/live.js:48-48 | A timer that fires starts a live run |
| LiveScheduler.Scheduler.Settle | clients/vscode/live.js:102-136 | An outcome is shown exactly when its run is still live and did not end in an AbortError, it is the pending snapshot's, and it is reported again as an error exactly when the result's callbacks threw |
| LiveScheduler.LiveHistory | clients/vscode/live.js:33-136 | Over every history: at most one live run; every outcome belongs to the latest edit and is its only one, never while paused or disposed, and is reported twice exactly when the callbacks for the result threw; an unanswered latest edit has a timer, a live run, a pause, a disposal or a self-aborted run |
| StateHash.ScalarPrefixFree | jvm-agent/src/main/java/io/github/p4suta/walaru/agent/AgentBridge.java:919-925 | Equal scalar encodings followed by any bytes have equal tags, texts and remainders |
| StateHash.PrefixFree | jvm-agent/src/main/java/io/github/p4suta/walaru/agent/AgentBridge.java:875-906 | Equal encodings followed by any bytes are of values equal up to map order, with equal remainders |
| StateHash.EqualMeaningEqualBytes | jvm-agent/src/main/java/io/github/p4suta/walaru/agent/AgentBridge.java:885-893 | Values equal up to map order have equal encodings, for every total order of keys |
| StateHash.EncodingIsExact | jvm-agent/src/main/java/io/github/p4suta/walaru/agent/AgentBridge.java:875-925 | Both directions: the encoding is prefix-free and injective up to the order of map entries |
| StateHash.StateHashPreimage | jvm-agent/src/main/java/io/github/p4suta/walaru/agent/AgentBridge.java:849-873 | Two events are hashed from the same bytes if and only if they agree on every field but the seven named ones |
| StateHash.OneFieldChanged | jvm-agent/src/main/java/io/github/p4suta/walaru/agent/AgentBridge.java:849-866 | Changing any one field changes the hashed bytes exactly if the field is none of those seven |
| StateHash.Digest.UpdateDigest | jvm-agent/src/main/java/io/github/p4suta/walaru/agent/AgentBridge.java:875-906 | The mutable digest is fed exactly the value's encoding |
| FieldMask.ProjectionIsExact | crates/walaru-daemon/src/server.rs:1426-1457 | What stands at any address is kept unchanged exactly when its key path is a prefix of a requested path or the reverse; everything else is gone |
| FieldMask.ProjectionIsIdempotent | crates/walaru-daemon/src/server.rs:1426-1457 | Projecting twice is projecting once |
| FieldMask.MaskIsExact | crates/walaru-daemon/src/server.rs:1408-1424 | The same for the dotted fields of a request; an empty list keeps everything |
| FieldMask.MaskIsASet | crates/walaru-daemon/src/server.rs:1408-1424 | Neither order nor repetition of fields matters, and masking again changes nothing |
| FieldMask.SegmentsOfDotted | crates/walaru-daemon/src/server.rs:1412-1421 | Every path of non-empty dot-free keys can be requested |
| FieldMask.SegmentsOfJoin | crates/walaru-daemon/src/server.rs:1412-1421 | A dot separates and nothing else does: the segments of two fields joined by a dot are those of the one and then of the other, and empty segments vanish |

## Left out

- Process launch and supervision, Gradle and Maven arguments, sockets, framing and start-up locks: operating system behaviour.
- SHA-256, zstd, base64, SQLite and JSON parsing: digests are injective, payloads are their sizes, event lines arrive parsed.
- Wall clocks: time-outs, cancellations and crashes are steps that may happen at any point; ids and times in the store are numbers in SQLite's order.
- Surface digests (`kotlin_surface`, `java_surface`): an opaque function of a file's content in the selection proof.
- What a test reads: `Incremental.dfy` assumes that surfaces and non-implementation files fix the set of tests, and that with a test's footprint files they fix its result and footprint.
- Selection from version-control history (`impacted_tests_since_git`): an easier variant of the same selection.
- Directories and path conflicts in the mirror: the mirror is a flat map of files.
- Sources that change while a preparation runs, and workers that give a file of their own a source file's exact modification time: outside the mirror theorem.
- The bounds and path checks of an overlay request (`OverlayRequest::validate`): thin checks.
- ReplayProgress.StuckIsDeadlock: speaks of scheduler and tape monitor only; locks of the program under test are not modelled.
- ReplayProgress.ReplayCompletes: the same. A synchronized method announces its MONITOR event while it holds its lock, so a thread can hold a program lock while waiting for its turn, and the thread at the cursor can block on that lock.
- Empty tape payloads: the daemon's reader rejects what the agent can write; `CarryTape` says so exactly.
- Agent strings with unpaired surrogates, which Java replaces when encoding, and how many replacement characters Java's decoder writes for malformed bytes: texts are sequences of Unicode scalar values.
- Utf8.DecodeEncode: speaks of well-formed bytes only, because nothing else is ever written.
- A test that ends while one of its threads is inside a replayed input read: that read returns without being scheduled. While recording, such a call is one that announces nothing.
- Class names with a colon in number encodings, and `SafeValue`'s ordering of unordered collections, whose sort key is not injective.
- Supported names no replay check reads (`virtualThreads`, `fieldReads`, `memorySchedule` and the like), the texts of unavailability reasons, and which of several missing capabilities an error names.
- Callbacks of the live scheduler that call back into it, a state callback that throws before the run starts, and the remote cancel request.
- Incremental.Verifier.Run: the run, its events and its exit status are the oracle's answer for the selection; a run whose workspace changed for good or whose stream was cut is the `Disturbed` step of the history, one whose workspace was back when it was captured again is the `Wavering` step.
- Failing writes to the store other than those the foreign keys refuse.
- `recent_test_events`, reverse debugging, watchpoints, `verify_replayed_prefix`, checkpoints, live value hints, `KotlinSourceMap`: easier members or best-effort parsers.
- A page limit of zero: it shows nothing and returns no cursor, so pagination is stated from one on.
