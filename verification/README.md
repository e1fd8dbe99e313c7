# Blackpepper: verified models of its protocols

Blackpepper keeps coding agents, Git worktrees and terminal sessions in step across helper processes that may die
at any moment. This project models the parts of it whose safety rests on an argument rather than on one line of
code, and proves the argument. Code that updates state in place is modelled by classes, arrays and loops that are
proved against specification functions; the promises are lemmas about those functions and about whole runs.

| files | what they model |
|---|---|
| `guardian_slots`, `guardian_child`, `lock_protocol` | the forked guardian that keeps a repository lock while a registered command group survives, and the protocol of helpers, guardians, gated groups and crashes |
| `agent_model`, `tracker`, `tracker_history`, `event_log`, `event_store`, `event_history`, `event_paging` | the per-run event log: the reducer, optimistic batch commits, retries against other writers, replay and paging |
| `freshness`, `delivery` | the delivery cursor that fails closed, and the two transactions of a delivery |
| `agent_runs`, `agent_writes`, `agent_events` | the life of agent runs: registration, binding, listing, reconciliation, deactivation |
| `focus`, `prompt_search`, `approval_preimage`, `mouse` | streaming recognisers, the approval hash input, mouse report encodings |
| `ssh_config` | the include traversal of SSH alias discovery |
| `supervisor_log`, `supervisor_turns`, `supervisor` | the development supervisor: rebuild and reload on change |
| `removal`, `session_lease` | journalled worktree removal, its reconciliation, and session leases against it |
| `stable_sort`, `status_rollup`, `tree`, `tree_properties`, `selection` | the tree of hosts, repositories and workspaces and the selection in it |

What the outside world answers (clocks, exit statuses, file and database failures, what other processes do in
between, where the helper dies) comes in as parameters, so every theorem is about all answers.

## What the proofs found

- The lock design needs three rules, and `SafeExactlyWithAllRules` gives the third one's exact bound: commands may run
  after one unanswered request, not after two. Callers return on the first failed command, with one exception: the
  listing before a switch discards its error and runs the next command on the same lock
  (`crates/blackpepper/src/host_services/worktrunk_exec.rs:97-104`). That leaves one unanswered request, so a late answer
  can open the next gate too early, and this is proved safe; a second such exception would not be.
- An exit is not terminal in the event log. If the helper dies between committing the exit and deactivating the run, any
  late provider event but a health report shows the run as live again; `LateHookRevives` is such a history.
- Rehydration from a snapshot forgets that a state came from a blocker overlay; it is invisible exactly when none is in
  effect or no further event can be accepted because the sequence numbers are used up.
- The log of deliveries is exactly what was acknowledged if and only if the helper never stops between logging a delivery
  and moving the cursor. Each such stop adds one entry, and a delivery is there twice once one is logged after a stop.
- If the old client's file cannot be removed after the new client was launched, the supervisor no longer holds the new
  client: `Shutdown` then succeeds with a client left running. `LeaveClientBehind` is such a run,
  and `FinishBuild` and `Shutdown` state exactly when.
- UTF-8 mouse reports do not round-trip for coordinates that would encode a surrogate or leave 16 bits, and a
  malformed byte behind a complete report keeps it from being recognised.
- The result of alias discovery is exact if and only if no path skipped as already visited leads to an alias that was not
  collected. A file with a relative include, reachable under names in two directories, loses one.

## Model

| member | source | states |
|---|---|---|
| GuardianChild.WaitGroupGone | crates/blackpepper/src/host_services/worktrunk_lock_guardian_child.rs:216-224 | waits at most the given number of polls, answers whether the group is gone at that moment, and never waits past its death |
| GuardianChild.TerminateGroup | crates/blackpepper/src/host_services/worktrunk_lock_guardian_child.rs:181-191 | at most 125 polls; SIGTERM and, only if 25 polls were not enough, SIGKILL; the answer is whether the group is gone |
| GuardianChild.RegisterGroup | crates/blackpepper/src/host_services/worktrunk_lock_guardian_child.rs:90-97 | the in-place table becomes that of the specification: the first free slot takes the group, and a full table answers Busy unchanged |
| GuardianChild.CompleteGroup | crates/blackpepper/src/host_services/worktrunk_lock_guardian_child.rs:99-109 | a group leaves its slot, acknowledged, if and only if it is gone by the end of its 125 polls; the signals sent are those of its termination |
| GuardianChild.CleanupAllOnce | crates/blackpepper/src/host_services/worktrunk_lock_guardian_child.rs:193-205 | every group is terminated in turn; a slot stays occupied if and only if its group outlasts its own 125 polls, the answer is yes if and only if none does, and the signals are those of each termination |
| GuardianChild.SweepUntilSurvivor | crates/blackpepper/src/host_services/worktrunk_lock_guardian_child.rs:207-214 | the short-circuiting sweep reports a survivor if and only if one exists when it stops; a survivor has been sent both signals last, and without one the whole table has been swept |
| GuardianChild.CleanupAllUntilGone | crates/blackpepper/src/host_services/worktrunk_lock_guardian_child.rs:207-214 | the loop is left if and only if every group of the table is gone: never while a group cannot be killed, and always within the watched time if each dies in it |
| GuardianChild.Serve | crates/blackpepper/src/host_services/worktrunk_lock_guardian_child.rs:58-87 | one request against the in-place table meets the request specification, a release by the groups that outlast their termination, and sends exactly the signals it needs |
| GuardianChild.Run | crates/blackpepper/src/host_services/worktrunk_lock_guardian_child.rs:14-88 | the guardian has left, by whatever way (end of file, read error, failed write, release), if and only if every group whose registration it had acknowledged is gone; its replies are those of the request semantics, its last cleanup swept the whole table or sent a survivor both signals, and each exit status has its exact cause |
| GuardianSlots.ServingKeepsLiveGroups | crates/blackpepper/src/host_services/worktrunk_lock_guardian_child.rs:58-109 | no request removes a group that still exists from the table, nor ends the guardian while one is there; an acknowledged registration is in the table |
| GuardianSlots.ReleaseAnswers | crates/blackpepper/src/host_services/worktrunk_lock_guardian_child.rs:77-83 | a release is acknowledged, with an empty table and the guardian gone, if every registered group is got rid of, and refused if one is still there |
| GuardianChild.AccountStep | crates/blackpepper/src/host_services/worktrunk_lock_guardian_child.rs:58-87 | every acknowledged group that may still exist stays accounted for by a slot, request after request |
| LockProtocol.StepKeepsInv | crates/blackpepper/src/host_services/worktrunk_lock_guardian_child.rs:38-88 | one inductive invariant of helper, guardian, gated groups, FIFO channel and crash, kept by each of the nineteen kinds of step, with registrations after at most one unanswered request |
| LockProtocol.AnswerMeansGuarded | crates/blackpepper/src/host_services/worktrunk_lock_guardian.rs:117-143 | the answer that a waiting registration reads may belong to an earlier request, but then the registration is at the head of the queue with a free slot: the group is, or inevitably will be, in the table |
| LockProtocol.DisciplinedRunsAreSafe | crates/blackpepper/src/host_services/process.rs:76-149 | in every reachable state of any number of helpers and guardians, with crashes anywhere and commands run after at most one unanswered request, a live group whose gate was opened still has its lock held |
| LockProtocol.CommandsAreExclusive | crates/blackpepper/src/host_services/worktrunk_lock.rs:29-61 | while such a group lives nobody else can acquire the lock, and all such groups belong to one acquisition |
| LockProtocol.GateBeforeRegistrationIsUnsafe | crates/blackpepper/src/host_services/process.rs:97-130 | opening the gate before the registration is acknowledged reaches a state with a live command and no lock |
| LockProtocol.UnlockOnDropIsUnsafe | crates/blackpepper/src/host_services/worktrunk_lock.rs:80-89 | an explicit unlock in Drop reaches such a state |
| LockProtocol.StaleAnswerOpensGateSafely | crates/blackpepper/src/host_services/worktrunk_exec.rs:97-104 | the run that the switch path makes possible: a late answer to the abandoned listing opens the gate of the next command before its registration is read, and the state is safe |
| LockProtocol.RegisterAfterTwoTimeoutsIsUnsafe | crates/blackpepper/src/host_services/worktrunk_lock_guardian.rs:117-143 | two unanswered requests reach a live command without its lock: the late answer opens a gate, the helper dies, and a failed reply drops the registration still queued |
| LockProtocol.SafeExactlyWithAllRules | crates/blackpepper/src/host_services/worktrunk_lock_guardian.rs:105-159 | the lock protects running commands in all runs if and only if gates wait for an answer, drops do not unlock, and commands run after at most one unanswered request |
| Tracker.AgentStatusTracker.Apply | crates/blackpepper/src/agent_status/tracker/transitions.rs:9-48 | the in-place update and its answer are those of the reducer |
| Tracker.AgentStatusTracker.ApplyEventKind | crates/blackpepper/src/agent_status/tracker/transitions.rs:90-137 | the in-place update of one kind of event is that of the reducer, whose meaning the next rows give |
| TrackerHistory.SnapshotTellsHistory | crates/blackpepper/src/agent_status/tracker/transitions.rs:9-137 | over all sequences of events and looks the snapshot is what the accepted events say: the last one that says something decides the state, a later failure report makes it unknown, completions are counted unless the supervisor had lost track of the run, and health is the last report or a later hook |
| TrackerHistory.SeenUpToLastLook | crates/blackpepper/src/agent_status/tracker.rs:133-139 | what is seen are the turns counted before the last look; a run at rest is Done if and only if one has been counted since |
| TrackerHistory.AcceptedEventShows | crates/blackpepper/src/agent_status/tracker/transitions.rs:90-137 | what one accepted event shows, overlay or not: which kinds raise the completion, suppress it, lift that, or leave the state |
| TrackerHistory.AcceptedEventCounts | crates/blackpepper/src/agent_status/tracker/transitions.rs:116-137 | and what it does to revision, sequence, time and health, every other field kept |
| TrackerHistory.RefusedExactly | crates/blackpepper/src/agent_status/tracker/transitions.rs:9-35 | an event is refused if and only if it is about another run or provider, not newer than all before, or not for its source to tell |
| Tracker.AgentStatusTracker.See | crates/blackpepper/src/agent_status/tracker.rs:133-139 | after marking seen the run never shows as done |
| Tracker.AgentStatusTracker.BeginRun | crates/blackpepper/src/agent_status/tracker.rs:94-117 | a new run in the same pane starts as new but for the revision counter |
| Tracker.SnapshotSurvivesExactly | crates/blackpepper/src/agent_status/tracker.rs:66-92 | a snapshot survives rehydration if and only if it is one a tracker can show |
| Tracker.RehydrationInvisibleExactlyWithoutOverlay | crates/blackpepper/src/agent_status/tracker.rs:66-92 | storing and rehydrating can never be noticed in any later answer if and only if no blocker overlay is in effect or the sequence is exhausted |
| Tracker.AlikeAnswers | crates/blackpepper/src/agent_status/tracker/transitions.rs:9-48 | trackers equal in what counts give equal answers to every sequence of events |
| EventLog.RefusedBatchChangesNothing | crates/blackpepper/src/agent_status/store_append.rs:28-179 | a batch refused before its commit changes neither the tables nor the caller's tracker |
| EventLog.CommittedBatchExtendsLog | crates/blackpepper/src/agent_status/store_append.rs:61-178 | a committed batch keeps the log invariant (events numbered 1 to n, latest snapshot stored with event n, one context per run) and appends exactly its drafts to exactly one run |
| EventLog.LatestIsLast | crates/blackpepper/src/agent_status/store_schema.rs:15-91 | the latest snapshot is the one committed with the last event |
| EventLog.CommitsOnlyWhenCurrent | crates/blackpepper/src/agent_status/store_append.rs:61-102 | only a tracker that has seen all committed events can commit |
| AgentWrites.CommitsExactly | crates/blackpepper/src/agent_status/store_append.rs:37-143 | any batch from any tracker commits if and only if the tracker has seen exactly the log, every draft continues it with the same run, provider and place, there is room, and each may come from its source |
| EventLog.OnlySoundRunsAreExtended | crates/blackpepper/src/agent_status/store_append.rs:61-102 | whatever the tables hold, a run is extended only if its row, latest snapshot and last event fit the batch and no row is in the way |
| EventLog.BatchOnlyExtends | crates/blackpepper/src/agent_status/store_append.rs:28-179 | accepted or refused, a batch leaves every run's log a prefix of the new one and the invariant intact |
| EventStore.AgentEventStore.Append | crates/blackpepper/src/agent_status/store_append.rs:28-179 | the transaction as it is run in place equals the batch specification on tables, tracker and result |
| EventStore.AgentEventStore.AppendTransient | crates/blackpepper/src/agent_status/store_append.rs:199-226 | with any batches of other writers between its reads and commits, a success was computed from exactly the state it commits on, any other refusal would have been one in that state too, and giving up as stale means at least eight other events went in |
| EventStore.RefusalStands | crates/blackpepper/src/agent_status/store_append.rs:199-226 | a batch refused for another reason than staleness is refused from the latest state as well |
| EventStore.StaleMeansOvertaken | crates/blackpepper/src/agent_status/store_append.rs:199-226 | a stale answer means that another event was committed since the read |
| EventStore.AgentEventStore.Follow | crates/blackpepper/src/agent_status/store_query.rs:80-126 | the row-by-row replay returns the specified page or refuses a corrupt row |
| EventHistory.StaleReadersCannotCommit | crates/blackpepper/src/agent_status/store_append.rs:61-102 | a tracker rehydrated earlier commits only if rehydrating now would give the same tracker |
| EventHistory.ReduceAllFollowsFold | crates/blackpepper/src/agent_status/store_append.rs:110-138 | a reduced batch stores the snapshots of the plain replay |
| EventHistory.HistoryIsSound | crates/blackpepper/src/agent_status/store_append.rs:199-226 | in every interleaving of writers every stored snapshot is the replay of its log prefix |
| EventHistory.CommittedWriteIsCurrent | crates/blackpepper/src/agent_status/store_append.rs:199-226 | whatever the interleaving, a committed write was computed from the very state it commits on |
| EventHistory.NoLostUpdate | crates/blackpepper/src/agent_status/store_append.rs:199-226 | a committed write adds exactly its own drafts after everything before it |
| EventPaging.PageIsSlice | crates/blackpepper/src/agent_status/store_query.rs:80-126 | one page is exactly the slice of the log after the cursor, up to the limit |
| EventPaging.OnlySoundRowsAreReplayed | crates/blackpepper/src/agent_status/store_query.rs:80-126 | whatever the tables hold, nothing is returned but stored rows of the run after the cursor whose numbers, runs and providers agree |
| EventPaging.PageMovesCursor | crates/blackpepper/src/agent_status/store_query.rs:80-126 | the cursor moves over exactly what was returned and never stands still before the end |
| EventPaging.PagesAreContiguous | crates/blackpepper/src/agent_status/store_query.rs:80-126 | pages read while the log grows are one gap-free and duplicate-free stretch of it |
| EventPaging.PagesReachTheEnd | crates/blackpepper/src/agent_status/store_query.rs:80-126 | on a fixed log any limits of at least 1 read everything in at most as many pages as events |
| Freshness.FreshnessTable.TouchIntegration | crates/blackpepper/src/agent_status/store_freshness.rs:13-87 | one run's row and the answer are those of the step specification, other rows are untouched |
| Freshness.FreshnessTable.AdvanceIntegration | crates/blackpepper/src/agent_status/store_freshness.rs:92-166 | likewise for a delivery |
| Freshness.FreshnessTable.MarkIntegrationGap | crates/blackpepper/src/agent_status/store_freshness.rs:168-210 | likewise for a marked gap |
| Freshness.RowTellsHistory | crates/blackpepper/src/agent_status/store_freshness.rs:13-210 | the row is a predicate of the whole call history: it exists once something other than a delivery happened, its gap flag is set if and only if some call was not the expected one, and without a gap the cursor counts the deliveries and time and version are the latest |
| Freshness.AnswersTellHistory | crates/blackpepper/src/agent_status/store_freshness.rs:58-86 | every answer by the history: continuous if and only if the call concerns the row and nothing was out of order so far, refused if and only if it names another provider |
| Freshness.GapsOnlyMark | crates/blackpepper/src/agent_status/store_freshness.rs:59-79 | a call that is not continuous changes nothing but the gap flag |
| Freshness.DeliveriesAreOneToCursor | crates/blackpepper/src/agent_status/store_freshness.rs:118-158 | the deliveries answered Continuous carried exactly 1, 2, ..., cursor |
| Freshness.GapIsForever | crates/blackpepper/src/agent_status/store_freshness.rs:39-79 | after a gap no call changes anything and none is answered Continuous |
| Freshness.RowsStayReadable | crates/blackpepper/src/agent_status/store_freshness.rs:212-256 | no history stores a row the reader rejects |
| Delivery.LogCoversCursor | crates/blackpepper/src/host_services/agent_events/opencode.rs:19-178 | wherever the helper stops, before or after the batch, the cursor or the mark of a gap, the log holds every acknowledged delivery, in order, and at most one beyond |
| Delivery.GapTellsHistory | crates/blackpepper/src/host_services/agent_events/opencode.rs:44-150 | the gap is recorded if and only if a heartbeat with another cursor, a second handshake or a delivery out of turn got as far as its first transaction |
| Delivery.DeliveryRefreshes | crates/blackpepper/src/host_services/agent_events/opencode.rs:44-150 | whatever is expected and gets through brings the row up to its time and version; anything else leaves all but the gap flag |
| Delivery.EveryStrikeIsAnExtraEntry | crates/blackpepper/src/host_services/agent_events/opencode.rs:113-150 | over all histories the log has as many entries as the cursor says plus one for every stop between logging an expected delivery and moving the cursor |
| Delivery.ExactlyOnceExactlyWithoutStrikes | crates/blackpepper/src/host_services/agent_events/opencode.rs:113-150 | the log is exactly 1, 2, ..., cursor if and only if there was no such stop |
| Delivery.NothingTwiceExactlyWithoutRetry | crates/blackpepper/src/host_services/agent_events/opencode.rs:113-150 | no delivery is logged twice if and only if none is logged after such a stop |
| Delivery.RetryRepeatsDelivery | crates/blackpepper/src/host_services/agent_events/opencode.rs:113-150 | a history in which one delivery is logged twice and no gap is noticed |
| Focus.FocusTracker.Observe | crates/blackpepper/src/client/focus.rs:34-77 | the state after a chunk is that of a declarative scan of the whole stream (pending is the longest suffix that can still become a token), and the answer is the last report completed in the chunk |
| Focus.ChunkingIsInvisible | crates/blackpepper/src/client/focus.rs:34-77 | trackers that saw the same bytes agree, however they were cut |
| Focus.ReportIsSeen | crates/blackpepper/src/client/focus.rs:34-77 | outside a paste a focus report is recognised whatever came before |
| Focus.PasteIsOpaque | crates/blackpepper/src/client/focus.rs:34-77 | inside a paste focus-shaped text changes nothing and the end marker always ends it |
| PromptSearch.ReadUntilPrompt | crates/blackpepper/src/host_services/worktrunk_approval.rs:170-202 | the search that keeps only a tail equals searching everything read so far after each read, with every error case |
| PromptSearch.StraddlingMatchesAreKept | crates/blackpepper/src/host_services/worktrunk_approval.rs:170-202 | keeping pattern length minus one bytes loses no straddling match and invents none |
| PromptSearch.OutcomeDependsOnBytesOnly | crates/blackpepper/src/host_services/worktrunk_approval.rs:170-202 | within the limit: Prompt if and only if the bytes contain it, else Eof, for every chunking |
| PromptSearch.TooLongExactlyWhenPassedFirst | crates/blackpepper/src/host_services/worktrunk_approval.rs:170-202 | the size error if and only if the limit is passed before a read completes the prompt |
| ApprovalPreimage.ApprovalToken | crates/blackpepper/src/host_services/worktrunk_approval.rs:133-157 | what the hasher is fed equals the preimage specification |
| ApprovalPreimage.DecodeUndoesFields | crates/blackpepper/src/host_services/worktrunk_approval.rs:159-162 | the length framing can be decoded for every list of fields |
| ApprovalPreimage.PreimageIsInjective | crates/blackpepper/src/host_services/worktrunk_approval.rs:133-162 | equal hash inputs come from equal identity, path, arguments (count, order, boundaries) and plan |
| ApprovalPreimage.PreimageIsTagged | crates/blackpepper/src/host_services/worktrunk_approval.rs:133-157 | every preimage begins with the program's tag, and the one of empty fields is known byte for byte |
| Mouse.SgrRoundTrip | crates/blackpepper/src/client/mouse.rs:69-99 | an SGR report parses back to its event and exact length for all 16-bit fields, whatever follows |
| Mouse.SgrPrefixIsPartial | crates/blackpepper/src/client/mouse.rs:69-99 | every proper prefix of at least three bytes is Partial |
| Mouse.SgrIsPartialExactly | crates/blackpepper/src/client/mouse.rs:69-79 | a sequence is waited for if and only if none of its bytes ends it and fewer than 64 are there; a complete one ends at its first terminator, among the first 64 bytes |
| Mouse.ParsesExactly | crates/blackpepper/src/client/mouse.rs:84-88 | a field is read if and only if it is digits for a number below 65536, leading zeros and one plus sign allowed, and its value is that number |
| Mouse.DefaultRoundTripExactly | crates/blackpepper/src/client/mouse.rs:101-121 | the single-byte encoding round-trips if and only if all fields are at most 223 and release matches the code |
| Mouse.Utf8RoundTripExactly | crates/blackpepper/src/client/mouse.rs:123-165 | the UTF-8 encoding (section 3 of RFC 3629) round-trips if and only if every field plus 32 is a scalar value below 65536, release matches the code, and the bytes that follow are well-formed |
| Mouse.Utf8PrefixIsPartial | crates/blackpepper/src/client/mouse.rs:123-137 | such a report cut anywhere after its introducer, even inside a character, is Partial |
| Mouse.UndecodableWaitsForLimit | crates/blackpepper/src/client/mouse.rs:124-130 | bytes that UTF-8 never uses are waited on until 64 bytes are there, and are invalid then |
| Mouse.WrittenIsReadBack | crates/blackpepper/src/client/mouse.rs:22-56 | what is written in a format is read back by that format, for each of them, and nothing is written in the fourth |
| Mouse.FirstCharOfEncoded | crates/blackpepper/src/client/mouse.rs:43-49 | decoding undoes encoding for every Unicode scalar value, whatever follows |
| Mouse.ReportStreamRoundTrip | crates/blackpepper/src/client/mouse.rs:22-99 | a stream of SGR reports parses back event for event |
| Mouse.KnownReports | crates/blackpepper/src/client/mouse.rs:69-99 | a press and a release as bytes in the three formats |
| Mouse.Encode | crates/blackpepper/src/client/mouse.rs:22-56 | appends exactly the encoding to the buffer, leaving out what a format cannot express |
| SshConfig.Importer.Visit | crates/blackpepper/src/ssh_config.rs:71-113 | in-place traversal: files entered are distinct and found from earlier ones, everything entered below a success is finished (read, aliases collected, includes visited), and every error is explained |
| SshConfig.DiscoverLiteralAliases | crates/blackpepper/src/ssh_config.rs:18-23 | success is the sorted list of a closed traversal from the root, each alias once; it is exactly the literal positive aliases of all reachable files if and only if no skip lost one, which paths that agree on the file they name ensure; a depth error exhibits a chain of seventeen includes through distinct files |
| SshConfig.LiteralsSelectThemselves | crates/blackpepper/src/ssh_config.rs:115-123 | imported are exactly the Host patterns without brackets that select the one host they spell |
| SshConfig.ExactExactlyWhenNothingLost | crates/blackpepper/src/ssh_config.rs:80-84 | the aliases of a successful traversal are exactly those of the reachable files if and only if every alias at or behind a path skipped as already visited has been collected |
| SshConfig.CoversExactlyWithHarmlessSkips | crates/blackpepper/src/ssh_config.rs:80-84 | every reachable file is entered and its aliases collected if and only if no skipped path would have brought a new file or alias |
| SshConfig.TraversalIsExact | crates/blackpepper/src/ssh_config.rs:71-113 | the depth cut-off never silently truncates: a closed traversal on a coherent disk covers exactly the reachable files, cyclic or not |
| SshConfig.RootedMeansReachable | crates/blackpepper/src/ssh_config.rs:98-104 | nothing is entered that is not reachable |
| SshConfig.TwoNamesLoseAnAlias | crates/blackpepper/src/ssh_config.rs:80-84 | on a disk with one file under names in two directories, whose relative include is joined to either, every successful traversal loses an alias |
| SshConfig.OneNameIsEnough | crates/blackpepper/src/ssh_config.rs:80-84 | and such a traversal exists: it enters the root, one name and what that name includes, and finds one of the two aliases |
| SupervisorLog.LaunchesAreFresh | crates/blackpepper-dev-watch/src/supervisor.rs:111-158 | a client is launched only from a successful build started after the last change received |
| SupervisorLog.StopsAreForFreshBuilds | crates/blackpepper-dev-watch/src/supervisor.rs:122-139 | a running client is stopped for a reload only after a fresh build was published, never for a failed or stale one |
| SupervisorLog.ChangesAreNotLost | crates/blackpepper-dev-watch/src/supervisor.rs:79-109 | a received change is still pending or a later build has started |
| SupervisorLog.SequencesIncrease | crates/blackpepper-dev-watch/src/supervisor.rs:104-106 | build sequence numbers strictly increase |
| SupervisorLog.OneBuildAtATime | crates/blackpepper-dev-watch/src/supervisor.rs:96-121 | between two starts the first build has ended |
| SupervisorLog.OneClientAtATime | crates/blackpepper-dev-watch/src/supervisor.rs:137-146 | between two launches the first client is gone |
| Supervisor.Supervisor.ReceiveSourceEvents | crates/blackpepper-dev-watch/src/supervisor.rs:79-94 | the draining loop is the receiving step of the turn: every change up to a report that ends the run is recorded with its time, and nothing else |
| Supervisor.Supervisor.StartBuildIfReady | crates/blackpepper-dev-watch/src/supervisor.rs:96-109 | starts the next build exactly when a change is pending, none runs and the debounce has passed |
| Supervisor.Supervisor.FinishBuild | crates/blackpepper-dev-watch/src/supervisor.rs:111-158 | fields, log and outcome are those of the finishing step; a client is orphaned if and only if it was launched over an old one whose file could not be removed |
| SupervisorTurns.FinishingMeans | crates/blackpepper-dev-watch/src/supervisor.rs:111-158 | a failed, stale or unpublished build changes nothing but the build slot; a fresh one reloads; success is characterised exactly |
| SupervisorTurns.ChangesAreReceived | crates/blackpepper-dev-watch/src/supervisor.rs:79-94 | every change up to a report that ends the run is logged and its time kept, and success means that every report was heard |
| SupervisorTurns.EveryChangeIsLogged | crates/blackpepper-dev-watch/src/supervisor.rs:58-94 | however many turns the loop has made, the log holds as many changes as were reported |
| SupervisorTurns.FinishedBuildIsLogged | crates/blackpepper-dev-watch/src/supervisor.rs:72-158 | a build that the loop finds finished is in the log as ended |
| SupervisorTurns.TurnEndsBuild | crates/blackpepper-dev-watch/src/supervisor.rs:72-158 | and if it is fresh and nothing is in the way, its client is launched in that turn |
| SupervisorTurns.QuietTurnsStartBuild | crates/blackpepper-dev-watch/src/supervisor.rs:72-109 | over quiet turns a pending change starts a build if and only if one of them comes after the debounce |
| SupervisorTurns.LoopAnswers | crates/blackpepper-dev-watch/src/supervisor.rs:58-77 | the run is over with zero exactly at a stop, or with the status of the client, one if it has none; every other end is an error |
| Supervisor.Supervisor.EventLoop | crates/blackpepper-dev-watch/src/supervisor.rs:58-77 | every turn before the end does its work, the one that ends it answers as it must, and the log is exactly theirs; after a normal end nothing is orphaned |
| Supervisor.Supervisor.Shutdown | crates/blackpepper-dev-watch/src/supervisor.rs:175-186 | success, which is characterised exactly, leaves no build running, and no client if and only if none was orphaned |
| Supervisor.LeaveClientBehind | crates/blackpepper-dev-watch/src/supervisor.rs:137-186 | a run from the start to a successful shutdown after which a client is still running |
| Supervisor.Run | crates/blackpepper-dev-watch/src/supervisor.rs:11-43 | the run is the first build, the turns of the loop and the shutdown, with the answer of the loop unless cleaning up fails; a successful one leaves nothing running, and at no end are there two builds or two clients |
| AgentRuns.AgentContextStore.Register | crates/blackpepper/src/host_services/agent_context.rs:56-109 | succeeds if and only if the context is valid and the run is active with it, or is new and its pane free; one active run per pane is kept |
| AgentRuns.RefusedRegistrations | crates/blackpepper/src/host_services/agent_context.rs:56-109 | a registration is refused for exactly these reasons: the context, a run that is over or registered otherwise, or a pane that an active run has |
| AgentRuns.AgentContextStore.Bind | crates/blackpepper/src/host_services/agent_context.rs:111-162 | succeeds if and only if context and binding are valid, the run is active with this context, and it is unbound with its terminal pane free or already has this very binding |
| AgentRuns.RefusedAttachments | crates/blackpepper/src/host_services/agent_context.rs:111-162 | a valid binding is refused for exactly these reasons: the run is not active under this context, is bound otherwise, or the terminal pane has an active run |
| AgentRuns.SoundMeans | crates/blackpepper/src/host_services/agent_context/storage.rs:46-48 | after any operations two active runs are never in one pane of a workspace nor in one terminal pane of a session |
| AgentRuns.RefusedBindings | crates/blackpepper/src/host_services/agent_context/storage.rs:209-256 | a binding is refused for exactly these reasons: no pane, a tab beyond 63 bits, an unfit text, no terminal selector, another tab name, or no open Zellij session of this workspace with this name and version |
| AgentRuns.TerminalPanesAreNumbered | crates/blackpepper/src/host_services/agent_context/storage.rs:233-239 | the selector of every pane number below 2^32 is accepted, with or without a plus sign, and of no greater one |
| AgentRuns.AgentContextStore.Deactivate | crates/blackpepper/src/host_services/agent_context.rs:164-186 | switches off exactly the matching run |
| AgentRuns.AgentContextStore.CleanupAbandonedUnbound | crates/blackpepper/src/host_services/agent_context/cleanup.rs:7-86 | abandoned unbound runs are switched off even when removing their files fails |
| AgentRuns.AgentContextStore.ActiveBound | crates/blackpepper/src/host_services/agent_context.rs:198-260 | returns each active bound run with a pane once, oldest first, switches off those without, and refuses exactly when there are more than 1000 |
| AgentRuns.SwitchingOffEvolves | crates/blackpepper/src/host_services/agent_context.rs:164-186 | switching runs off keeps uniqueness and every context and binding |
| AgentWrites.WriteTouchesOneRun | crates/blackpepper/src/host_services/agent_events.rs:188-237 | a locked write changes only its run's log; logged events keep the registered context; logs of switched-off runs are frozen |
| AgentWrites.HealthReportLands | crates/blackpepper/src/host_services/agent_events/status.rs:126-133 | a health report sets the stored health and never enters or leaves the exited state |
| AgentWrites.LateEventsReviveExactly | crates/blackpepper/src/host_services/agent_events.rs:174-186 | in any log the store builds, every provider event commits after a committed exit and before deactivation, and the run stays exited if and only if the event is a health report |
| AgentWrites.ExitClearsSuppression | crates/blackpepper/src/agent_status/tracker/transitions.rs:90-137 | over all event histories an exited run never suppresses completions |
| AgentWrites.LateHookRevives | crates/blackpepper/src/host_services/agent_events.rs:143-186 | a history in which it happens, for any run and provider: an exit is committed, then a hook, and the run shows as working |
| AgentWrites.WritesExactly | crates/blackpepper/src/host_services/agent_events.rs:204-220 | a locked write commits if and only if it says something, there is room for it, and each event may come from its source under the capability in force |
| AgentWrites.ProvidersMayAlwaysAsk | crates/blackpepper/src/host_services/agent_events.rs:244-249 | the first write of a run fixes that its provider may ask by itself, with an overlay for two of the three, and no write changes that |
| AgentEvents.HostAgentEvents.AppendManyLocked | crates/blackpepper/src/host_services/agent_events.rs:188-237 | succeeds if and only if the run is active with this context and there is nothing to say, or each event may come from its source, the log has room and the files can be protected; then the log gains exactly these events in order, with this source and time, and otherwise nothing is written |
| AgentEvents.HostAgentEvents.RefreshIntegrationHealth | crates/blackpepper/src/host_services/agent_events/status.rs:67-135 | success, which is characterised exactly, leaves the integration healthy if and only if its deliveries are fresh, and stale after a gap; a repeat writes nothing, and the exited state is never touched |
| AgentWrites.DueExactly | crates/blackpepper/src/host_services/agent_events/status.rs:98-127 | a correction is written if and only if fresh deliveries do not show as healthy, no longer fresh ones still do, or a missing one does not show |
| AgentEvents.HostAgentEvents.ListRuns | crates/blackpepper/src/host_services/agent_events.rs:71-97 | in whatever state a crash left the tables, listed runs are active, bound, oldest first, each once, shown with their committed snapshot and never exited, no active bound run is left out, and nothing fails while nothing outside does |
| AgentEvents.HostAgentEvents.ReconcileRun | crates/blackpepper/src/host_services/agent_events.rs:99-138 | an observation is recorded as the event it is worth, an exit observed or already committed switches the run off, and success is characterised exactly |
| AgentEvents.ObservationsAreLogged | crates/blackpepper/src/host_services/agent_events.rs:121-138 | a live run is left alone, an unknown state is logged unless shown already, and an end always, with its exit status |
| AgentEvents.HostAgentEvents.FinishExited | crates/blackpepper/src/host_services/agent_events.rs:143-158 | the exit is committed if there is room, before the run is switched off, so a death in between leaves the exit in the log; success is characterised exactly |
| AgentEvents.HostAgentEvents.Abort | crates/blackpepper/src/host_services/agent_events.rs:59-69 | switches off exactly the active run with this context |
| AgentEvents.HostAgentEvents.Perform | crates/blackpepper/src/host_services/agent_events.rs:40-186 | every operation does what it is for and succeeds exactly when it can, keeps uniqueness, contexts, bindings and log prefixes, and on a switched-off run fails and changes nothing |
| AgentEvents.HostAgentEvents.Serve | crates/blackpepper/src/host_services/agent_events.rs:27-237 | the same for each operation of whole histories, with failures and deaths in between |
| Removal.HostRegistry.PlanWorktrunkRemoval | crates/blackpepper/src/core/registry/removals.rs:30-65 | succeeds if and only if both workspaces are registered on this host with one repository and nothing is pending; the plan says of both what the registry says now |
| Removal.HostRegistry.JournalWorktrunkRemoval | crates/blackpepper/src/core/registry/removals.rs:70-100 | the intent is stored if and only if it is current and nothing is pending |
| Removal.HostRegistry.FinishWorktrunkRemoval | crates/blackpepper/src/core/registry/removals.rs:145-180 | workspace and intent go together, and only if the intent is the recorded one and the workspace unchanged or already gone |
| Removal.HostRegistry.CancelWorktrunkRemoval | crates/blackpepper/src/core/registry/removals.rs:184-203 | only the intent goes, and only if it is the recorded one |
| Removal.HostRegistry.ReconcileRemovalIntents | crates/blackpepper/src/host_services/worktrunk_reconcile.rs:104-143 | with arbitrary moves of other helpers between its transactions the intents are settled oldest first up to a point, success is characterised exactly, a listing that is not authoritative changes nothing, and what is settled stays settled while others spare the repository; among quiet others success is the reconciled tables |
| Removal.SettledStaysSettled | crates/blackpepper/src/host_services/worktrunk_reconcile.rs:126-141 | while only the lock holder touches the repository's intents, exactly the settled ones are gone after any number of settlements, and only a changed workspace record can refuse the next |
| Removal.QuietReconciliation | crates/blackpepper/src/host_services/worktrunk_reconcile.rs:126-141 | settling one by one, interrupted or not, adds up to the partly or wholly reconciled tables |
| Removal.ReconciliationByWorkspace | crates/blackpepper/src/host_services/worktrunk_reconcile.rs:126-141 | finished or interrupted, intents of other repositories are untouched and a settled workspace stays registered if and only if its path was listed |
| Removal.InterruptionIsInvisible | crates/blackpepper/src/host_services/worktrunk_reconcile.rs:126-141 | a crash in the loop followed by a rerun on the same list ends in the same tables |
| Removal.ReconcilingIsIdempotent | crates/blackpepper/src/host_services/worktrunk_reconcile.rs:104-143 | reconciling twice is reconciling once |
| Removal.HostRegistry.ListRepository | crates/blackpepper/src/host_services/worktrunk_reconcile.rs:41-65 | the listed repository is the workspace's own or that of its removal's unchanged survivor |
| Removal.HostRegistry.RecoveryRepository | crates/blackpepper/src/host_services/worktrunk_reconcile.rs:67-102 | recovery needs a matching intent and an unchanged survivor with the recorded repository key |
| Removal.HostRegistry.List | crates/blackpepper/src/host_services/worktrunk_reconcile.rs:13-29 | whatever other helpers do before the lock is owned, and while they spare the repository under it, success leaves no pending intent there; a workspace that is gone can only have been listed through its own removal, which is not pending any more |
| Removal.HostRegistry.FindSurvivor | crates/blackpepper/src/host_services/worktrunk_reconcile/removal.rs:163-182 | the survivor is the first by root path of the other workspaces of this host in the same repository, or there is none |
| Removal.HostRegistry.RemovalIntent | crates/blackpepper/src/host_services/worktrunk_reconcile/removal.rs:133-191 | an intent is formed if and only if one is true of the tables and the disk, with the first survivor |
| Removal.PlanNamesFirstSurvivor | crates/blackpepper/src/host_services/worktrunk_reconcile/removal.rs:133-191 | an intent names target and survivor as the registry has them, both in the repository of its key, and no other such workspace has an earlier path |
| Removal.HostRegistry.Remove | crates/blackpepper/src/host_services/worktrunk_reconcile/removal.rs:14-105 | among arbitrary changes by others between its steps a removal is journalled if and only if plan, re-plan under the lease, plan under the lock and journal agree, the token is the current one and no Zellij session is open; it is forgotten only after the command succeeded, and a preview changes nothing |
| Removal.ForgottenOnlyAfterSuccess | crates/blackpepper/src/host_services/worktrunk_reconcile/removal.rs:76-104 | if others leave the workspace alone once it is journalled, it is gone exactly when the command succeeded and otherwise registered with its intent |
| SessionLease.StepKeepsInv | crates/blackpepper/src/host_services/session_lease.rs:45-108 | one invariant of any number of lease holders and removers, kept by every step, end and crash |
| SessionLease.MovesChangeRegistry | crates/blackpepper/src/core/registry/removals.rs:70-180 | workspace by workspace, which moves begin and end a registration and a pending removal |
| SessionLease.LeasesAreExclusive | crates/blackpepper/src/host_services/session_lease.rs:124-166 | a workspace's session is held by at most one client |
| SessionLease.ReadyWasValidatedUnderLock | crates/blackpepper/src/host_services/session_lease.rs:55-67 | every READY goes back to a moment at which its client owned the lock and its workspace was registered without a pending removal |
| SessionLease.OneValidationIsUnsafe | crates/blackpepper/src/host_services/session_lease.rs:55-67 | without the second validation a run reaches READY beside a journalled removal |
| SessionLease.AnyNameIsUnsafe | crates/blackpepper/src/host_services/session_lease.rs:103-107 | without the name check another lock file is taken and the same happens |
| SessionLease.JournallingWithoutLeaseIsUnsafe | crates/blackpepper/src/host_services/worktrunk_reconcile/removal.rs:42-79 | journalling without owning the lease allows the same |
| SessionLease.SafeExactlyWithAllRules | crates/blackpepper/src/host_services/session_lease.rs:52-67 | no interleaving has READY beside a journalled removal if and only if all three rules are kept |
| SessionLease.Host.HoldSessionLease | crates/blackpepper/src/host_services/session_lease.rs:45-78 | among arbitrary moves of others, every move the lease makes and the answer that follows are stated exactly: refusal at the first or second validation, busy after the last try for the lock, a failed READY line, and reading up to the first message that closes or breaks the channel; READY needs the proper name, and from READY to the end the lock is owned and no removal is journalled |
| StatusRollup.RollupIsMaximum | crates/blackpepper/src/client/model.rs:232-237 | the rollup is a status with the greatest priority, Idle for none |
| StatusRollup.RollupFollowsUrgency | crates/blackpepper/src/client/model.rs:66-76 | a group shows the first of needs input, done, working, ready, unknown, exited and idle that one of its members shows |
| StatusRollup.RollupIgnoresOrder | crates/blackpepper/src/client/model.rs:66-76 | only which statuses occur matters |
| StatusRollup.RollupOfRollups | crates/blackpepper/src/client/model.rs:150-186 | rolling up rolled-up groups is rolling up everything, for every division |
| Tree.BuildHost | crates/blackpepper/src/client/model.rs:128-192 | the grouping loop over an ordered map, the stable sorts and the rollup of one host give the node of the specification |
| Tree.BuildTree | crates/blackpepper/src/client/model.rs:120-196 | the tree is the specified one: a node per host, sorted stably by text |
| Tree.OrderIsUnique | crates/blackpepper/src/client/model.rs:128-150 | the order of the groups before sorting is determined by their keys alone |
| TreeProperties.EverythingIsSorted | crates/blackpepper/src/client/model.rs:151-194 | hosts, repositories and workspaces are shown in the order of their texts |
| TreeProperties.SameTextsByRepository | crates/blackpepper/src/client/model.rs:110-191 | among groups with the same text repositories come by their identifier, and folders last |
| StableSort.SortIsStable | crates/blackpepper/src/client/model.rs:151-187 | equal texts keep their sequence |
| StableSort.FirstDifferenceDecides | crates/blackpepper/src/client/model.rs:151-194 | texts are ordered by their first difference |
| TreeProperties.HostKeepsWorkspaces | crates/blackpepper/src/client/model.rs:128-150 | a host's groups together hold exactly the nodes of its workspaces, as a multiset |
| TreeProperties.RepositoriesArePure | crates/blackpepper/src/client/model.rs:144-171 | a repository node holds only workspaces of that repository, each with the path, name, status and setup of the snapshot and the statuses |
| TreeProperties.NodesShowThemselves | crates/blackpepper/src/client/model.rs:160-191 | hosts and repositories show their own names and connections; a node without a repository stands for one workspace |
| TreeProperties.OneNodePerRepository | crates/blackpepper/src/client/model.rs:144-171 | a repository has one node under a host |
| TreeProperties.HostStatusIsMostUrgent | crates/blackpepper/src/client/model.rs:187-188 | a host's status is the most urgent that the statuses give its workspaces |
| Selection.EveryWorkspaceOnce | crates/blackpepper/src/client/state.rs:191-198 | with unique identifiers the tree lists every workspace of a known host exactly once and nothing else |
| Selection.ClientState.RebuildTree | crates/blackpepper/src/client/state.rs:181-189 | a selection that is no longer shown falls back to the first workspace or none |
| Selection.ClientState.SelectNext | crates/blackpepper/src/client/state.rs:200-213 | moves by the 32-bit remainder from the selected or first position and takes the host along |
| Selection.WalkVisitsAllAndReturns | crates/blackpepper/src/client/state.rs:200-213 | as many steps as there are workspaces visit each and return |
| Selection.WalkingTheTree | crates/blackpepper/src/client/state.rs:181-213 | after a rebuild this covers every workspace of every known host |
| Selection.BackUndoesForward | crates/blackpepper/src/client/state.rs:200-213 | one step back undoes one step forward |

## Left out

- LockProtocol.DisciplinedRunsAreSafe: assumes that a group that is gone stays gone (no reuse of process numbers), that descendants keep a group alive, that nobody kills the guardian, that requests are written whole, and that the guardian meets an end of file or a failed read only after the helper is gone and the queue is read. After an unanswered request it allows sixteen registrations in one acquisition; the program makes at most seven.
- EventLog.RefusedBatchChangesNothing: says nothing of the protection of database files after the commit, which can turn a committed batch into an error answer; `AppendBatch` models that case as committed.
- SshConfig.DiscoverLiteralAliases: splitting lines into keywords, tilde, globbing and the file system are functions of the disk.
- SshConfig.TraversalIsExact: coherence is sufficient and can be checked before the traversal; the exact condition, which speaks of the paths it skips, is `ExactExactlyWhenNothingLost`.
- Removal.HostRegistry.Remove: the Worktrunk command line and the plan behind the approval token are parameters; the lease as a lock is in `SessionLease`.
- Selection.WalkingTheTree: for fewer than 2^31 workspaces, beyond which the program's conversion to 32 bits would no longer be the length.
- Supervisor.Supervisor.StartBuildIfReady: sequence numbers are unbounded; the program counts in 64 bits.
- Blocker overlays as such: how screens are recognised as blockers, applied and explained; only that one is in effect.
- SQLite, JSON, UUIDs and file permissions: tables are maps and transactions are atomic steps.
- SHA-256: only its input is modelled.
- The framing of mouse and keyboard input (`client/mouse/protocol.rs`, `client/input`), and the translation of coordinates.
- How path names, repository names and host names are derived for display; they are functions.
- Rendering, themes, the command catalogue, terminal emulation, the clipboard, and the calls of git, gh, ssh and Zellij.
- Draining output up to a bound after the approval prompt, and the dialogue with the approval terminal.
- Argument parsing, configuration precedence and status words, which would add only single-branch facts.
