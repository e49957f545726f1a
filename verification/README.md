# Sandboxes, agents, verdicts and calldata: a verified model

This project models the parts of the verification platform that keep state, interleave or do exact
arithmetic, and proves what they promise. It is split by component; each component has the definitions
that follow the code step by step, the theorems about every run, and, where the code changes objects in
place, a class whose methods are proved against those definitions.

| files | component |
|---|---|
| `Pool.dfy`, `Admission.dfy` | the sandbox pool with its capacity event; the life of the queue consumer's handlers |
| `Docker.dfy`, `Reaper.dfy` | teardown and garbage collection of labelled Docker resources, alone and among handlers, sweeps and provisioning threads |
| `Json.dfy`, `Conversation.dfy`, `Breakpoints.dfy`, `Session.dfy`, `AgentLoop.dfy` | the agent loop: turns, compression, cache markers, budgets |
| `Ledger.dfy`, `Executor.dfy`, `LedgerObjects.dfy` | the invocation log, verdict recordings, tool calls, the closing of a session |
| `Hex.dfy`, `Layout.dfy`, `Abi.dfy`, `Calldata.dfy` | the Contract ABI with a general decoder, and the hand-written encoders |
| `BuildCache.dfy`, `BuildCacheRuns.dfy`, `Eviction.dfy`, `BuildCacheObjects.dfy` | the application build cache and its eviction |
| `AnvilCache.dfy` | the two-rename save of the Anvil state cache |
| `LogBuffer.dfy` | the log batch buffer shared by threads |
| `Catalog.dfy` | the release catalog and its three watchers |
| `Vouchers.dfy` | voucher polling and validator restarts |
| `Collections.dfy`, `Wrappers.dfy` | shared helpers |

How concurrency is modelled: a component's state is a value, an event is the code between two suspension
points (or under one lock, or one transaction), `Can` says when an event is possible, `Do` what it does,
and `Run(s, events, t)` that the events lead from `s` to `t`. A theorem about every `Run` is a theorem
about every interleaving. Assumptions appear as `requires` clauses or as a predicate over the run, and a
lemma with a concrete run shows what happens without them.

Python strings are `string`, bytes are `seq<byte>` with `byte` below 256, and integers are unbounded, as in
Python; where a value must fit 256 bits the encoder raises as `to_bytes` does.

## Where the code and its own words disagree

The model follows the code. These are proved, each as an exact condition; where a run shows it, that is named too:

- `pool.acquire` after `wait_for_slot` is said not to fail; it does exactly when active and admitted
  handlers together exceed the pool (`Admission.DropIff`, `Admission.SecondAdmissionLost`).
- A slot is lost for good exactly by a teardown that raises (`Admission.SlotLostIff`).
- A failed save into the build cache is logged as "next run will rebuild"; it does so exactly when not even
  the cache volume was created, and hits the partial volume otherwise (`BuildCacheRuns.RebuildIff`,
  `BuildCacheRuns.FailedCopyPoisons`).
- A hit of the build cache is the wanted build exactly when its volume was not evicted before the copy
  (`BuildCacheRuns.HitIff`, `BuildCacheRuns.EvictedHitIsEmpty`), and the fallback's exactly when, besides, its
  volume is not still being filled (`BuildCacheRuns.UnlockedFallbackIff`,
  `BuildCacheRuns.FallbackMeetsUnfinishedCopy`).
- A garbage collection pass removes a container of an active sandbox exactly when its row was inserted after
  the pass read the table (`Reaper.ActiveIsHitIff`, `Reaper.LateSandboxIsHit`).
- The transcript drops a `cache_control` key inside a tool's own input, and is exact precisely when there is
  none (`Breakpoints.TranscriptExactIff`).
- `addInput` calldata of a payload with an odd number of digits is an ABI encoding only if the last digit is
  a zero that falls into the padding (`Calldata.AddInputCanonicalIff`).
- A second recording of a passed test without a new tool call is downgraded although the row owns steps
  (`Ledger.GateIff`), and steps over the trail's cap go to the next verdict (`Ledger.RestGoesToNextVerdict`).
- The count of auto-recorded verdicts is the number of rows written exactly when no missing test was
  selected twice (`Executor.CloseOutCountIff`).
- A node release and the CLI release that mentions it give a different `cli_tag` in the two orders unless
  the resolver found a CLI (`Catalog.OrderAgreesIff`).
- A voucher whose epoch was submitted by hand is said to be on chain; a poll returns one that is neither
  claimed nor accepted exactly when it is met again after its epoch's submission failed
  (`Vouchers.AnswerIsPrematureIff`, `Vouchers.SecondOfFailedEpochIsTaken`); and no validator is restarted
  before the clock itself has reached the cooldown (`Vouchers.FirstRestartIff`).
- The Anvil state and its sidecar are said to be persisted atomically; what is found later is one save's
  exactly as long as no provision misses beside a save under way (`AnvilCache.OverlapIff`,
  `AnvilCache.TwoWritersMismatch`).

## Model

| member | source | states |
|---|---|---|
| Pool.EveryInterleaving | services/sandbox-manager/pool.py:35-62 | over every interleaving of acquire, release and waiting tasks: active slots never exceed the maximum, a cleared event means a full pool, and so does a parked task |
| Pool.SlotsAreGrants | services/sandbox-manager/pool.py:35-56 | after any events the slots are exactly those granted by an acquire that found room and not released since |
| Pool.WaitParksIff | services/sandbox-manager/pool.py:58-62 | a waiting task returns exactly when there is room, and otherwise clears the event and parks |
| Pool.NoLostWakeup | services/sandbox-manager/pool.py:58-62 | in every reachable state with a free slot, every waiting task can run and returns when it does |
| Pool.ReleaseWakes | services/sandbox-manager/pool.py:51-62 | a parked task cannot run; releasing a taken slot makes it runnable, and it then returns |
| SandboxPools.SandboxPool.Acquire | services/sandbox-manager/pool.py:35-49 | refuses exactly at capacity; otherwise adds the entry and clears the event when the last slot goes |
| SandboxPools.SandboxPool.Release | services/sandbox-manager/pool.py:51-56 | removes the entry, if any, sets the event and wakes every waiting task |
| SandboxPools.SandboxPool.TryWait | services/sandbox-manager/pool.py:58-62 | one pass of the waiting loop: returns on capacity, else clears the event and parks |
| Admission.SlotsAreHandlers | services/sandbox-manager/consumers/sandbox_queue.py:356-526 | if teardowns return, the active entries are exactly the handlers between acquire and the end of finally, each handler is released exactly once on every exit path, and the entries never exceed the maximum |
| Admission.StuckIff | services/sandbox-manager/consumers/sandbox_queue.py:523-526 | a handler is stuck exactly when it was stuck before or its teardown raised in the run |
| Admission.SlotLostIff | services/sandbox-manager/consumers/sandbox_queue.py:523-526 | in every run the pool's entries are exactly the handlers between acquire and the end of finally and those whose teardown raised; the latter are never released |
| Admission.TornDownIff | services/sandbox-manager/consumers/sandbox_queue.py:523-526 | in every run a handler that is done tore its sandbox down, and before it released its slot, exactly when the sandbox had been provisioned |
| Admission.AdmittedLeaves | services/sandbox-manager/consumers/sandbox_queue.py:240-360 | an admitted handler may be abandoned, granted a slot, or refused one |
| Admission.EarlyExits | services/sandbox-manager/consumers/sandbox_queue.py:366-425 | before provisioning is over a handler may be cancelled, raise or fail to build, and each way ends with its slot free and no teardown |
| Admission.LateExits | services/sandbox-manager/consumers/sandbox_queue.py:446-526 | afterwards it may be cancelled, raise or finish, and each way ends with its slot free past a teardown |
| Admission.DroppedWasOvertaken | services/sandbox-manager/consumers/sandbox_queue.py:240-250 | for every dropped request the run has three events in this order: the one that admitted it, an acquire that grants a slot to another handler, and its own acquire at a full pool |
| Admission.FitsStep | services/sandbox-manager/pool.py:35-49 | while active and admitted handlers together fit the pool, every step keeps them fitting and every acquire succeeds |
| Admission.RoomyRunsDropNone | services/sandbox-manager/consumers/sandbox_queue.py:240-250 | a run that admits only what still fits drops no request |
| Admission.OnePendingDropsNone | services/sandbox-manager/consumers/sandbox_queue.py:240-250 | with at most one pending admission at any time no request is dropped |
| Admission.AcquireAllDrops | services/sandbox-manager/consumers/sandbox_queue.py:356-359 | pending handlers that reach acquire with no release in between lose exactly the excess over the pool, in whatever order they come |
| Admission.DropIff | services/sandbox-manager/consumers/sandbox_queue.py:356-359 | a pending request is dropped exactly when active plus pending exceed the maximum |
| Admission.AdmitIff | services/sandbox-manager/consumers/sandbox_queue.py:240-250 | after admissions that found room, one more loses no request, whatever follows, exactly when active and pending handlers together leave a slot |
| Admission.SecondAdmissionLost | services/sandbox-manager/consumers/sandbox_queue.py:240-250 | with one slot, a second message admitted before the first handler acquires is acknowledged and lost |
| Docker.Host.GcOrphanedResources | services/sandbox-manager/provisioner.py:2681-2782 | the whole pass on Docker's resources, whatever listing or removal fails, and the count of orphaned sandboxes it returns |
| Docker.Host.CollectContainers | services/sandbox-manager/provisioner.py:2706-2726 | in any listing order, exactly the removable containers labelled with an inactive sandbox go, and the orphaned ids are theirs |
| Docker.Host.CollectNetworks | services/sandbox-manager/provisioner.py:2728-2750 | exactly the removable networks labelled with an inactive sandbox go |
| Docker.Host.CollectVolumes | services/sandbox-manager/provisioner.py:2752-2772 | exactly the snapshot volumes and build directories named after the orphans go |
| Docker.Host.Teardown | services/sandbox-manager/provisioner.py:2604-2677 | removes what the sandbox's record names, with the remembered snapshot volume where it names none, its directories, whatever single removal fails, and nothing else |
| Docker.CollectedIsClean | services/sandbox-manager/provisioner.py:2681-2782 | a pass whose removals succeed leaves exactly the containers and networks that are unlabelled or of an active sandbox; a second pass finds nothing |
| Docker.CollectedIff | services/sandbox-manager/provisioner.py:2706-2750 | whatever fails: a container or network goes exactly if the listing worked, its label is not empty and names a sandbox that is not active, and its removal is not refused |
| Docker.CollectedVolumesIff | services/sandbox-manager/provisioner.py:2752-2772 | a volume or build directory goes exactly if it is named after the sandbox of an orphaned container and its removal is not refused |
| Docker.NamesAgreeIff | services/sandbox-manager/provisioner.py:2752-2772 | two sandboxes share the names of volumes and directories exactly when the first eight characters of their ids agree |
| Docker.ActiveIsSafe | services/sandbox-manager/provisioner.py:2713-2764 | no container or network of an active sandbox goes; its snapshot volume goes exactly when an orphan with a container shares its eight-character prefix |
| Docker.ActiveBuildDir | services/sandbox-manager/provisioner.py:2766-2772 | the build directory of an active sandbox goes exactly when an orphan with a container shares its prefix |
| Docker.VolumeWithoutContainerStays | services/sandbox-manager/provisioner.py:2752-2764 | a snapshot volume whose sandbox has no labelled container is never collected |
| Docker.TeardownIsExact | services/sandbox-manager/provisioner.py:2626-2670 | where its record is complete, a teardown leaves exactly the containers of other sandboxes, the other networks, volumes and directories, and what Docker refuses to remove |
| Docker.TeardownTakesVolume | services/sandbox-manager/provisioner.py:2604-2677 | the snapshot volume that goes is the one the record names, or else the one remembered for the sandbox |
| Reaper.RemovesOnlyOrphans | services/sandbox-manager/consumers/sandbox_queue.py:214-236 | in every run of handlers, provisioning threads, sweeps, teardowns and passes, a container or network that a pass removes is of a sandbox outside its snapshot, and if that sandbox is active its row was inserted after the snapshot |
| Reaper.PassLeavesOnlyActive | services/sandbox-manager/provisioner.py:2681-2750 | whatever ran before and during it, a pass whose listings and removals succeed leaves only containers and networks of sandboxes in its snapshot or inserted since |
| Reaper.NothingLeaksPastAPass | services/sandbox-manager/consumers/sandbox_queue.py:448-451 | a sandbox whose row is closed or failed when a successful pass begins has no container and no network when it ends, whatever its own teardown did |
| Reaper.CancelledIsCleaned | services/sandbox-manager/consumers/sandbox_queue.py:448-451 | a handler cancelled after provisioning, whose container ids were never stored, leaves Docker as it is; after any further run the next successful pass leaves nothing of its sandbox |
| Reaper.ActiveIff | services/sandbox-manager/consumers/sandbox_queue.py:366-526 | in every run a sandbox is active exactly from its mark on until its build fails, its handler fails it or tears it down, or a sweep takes it |
| Reaper.FailedBuildLeavesNothing | services/sandbox-manager/provisioner.py:296-379 | a new sandbox that is marked and built with container, network and volume, and whose build then fails, leaves Docker as it found it and a failed row |
| Reaper.ServedLeavesNothing | services/sandbox-manager/consumers/sandbox_queue.py:140-197 | one that served leaves Docker as it found it and a closed row, by its teardown, or after a restart by the sweep, even where its record names no network |
| Reaper.ActiveIsHitIff | services/sandbox-manager/consumers/sandbox_queue.py:214-231 | in every run, when a pass lists the containers, it will remove one of an active sandbox if and only if that sandbox's row was inserted after the pass read the table |
| Reaper.ActiveNetworkIsHitIff | services/sandbox-manager/provisioner.py:2728-2750 | the same of its networks |
| Reaper.LateSandboxIsHit | services/sandbox-manager/consumers/sandbox_queue.py:214-231 | a run in which a sandbox marked between the snapshot and the listing loses its container while it is being provisioned |
| Reaper.UndisturbedPass | services/sandbox-manager/provisioner.py:2681-2782 | the passes' separate steps, in any order of removal, compose to the collector's specification for the active rows |
| Reaper.PassCanFinish | services/sandbox-manager/provisioner.py:2681-2782 | from every state a pass can be brought to its end without a failure, and then Docker is as the collector's specification says |
| Reaper.EndTakes | services/sandbox-manager/provisioner.py:2752-2772 | the end of a pass takes exactly the volumes and directories of the sandboxes it found orphaned, but those whose removal is refused |
| Conversation.TurnAppends | services/ai-agent/agent_loop.py:327-400 | a turn with tool calls appends one assistant message and one user message with equal ids in equal order; a turn without appends one reply of text |
| Conversation.TurnCarries | services/ai-agent/agent_loop.py:328-398 | the assistant message holds the reply's texts and tool calls, whole and in order; each tool result is that of its own call, with its own output |
| Conversation.CallsAreUses | services/ai-agent/agent_loop.py:331-339 | the calls that are executed are the reply's tool_use blocks, with their ids, names and inputs, in order |
| Conversation.CutOnBoundary | services/ai-agent/agent_loop.py:414-439 | on a list of a head and whole pairs the last-four cut lands on a pair boundary |
| Conversation.CompressKeepsShape | services/ai-agent/agent_loop.py:402-440 | compression keeps the list a head followed by whole pairs |
| Conversation.CompressedCarries | services/ai-agent/agent_loop.py:430-445 | compression leaves a message that ends with the whole summary, the acknowledgement, and the last four messages |
| Conversation.BareTurnBreaksCut | services/ai-agent/agent_loop.py:436-440 | after a reply without tool calls that the run goes on from, the cut falls between pairs exactly when two whole pairs have followed it; until then it starts with tool results whose call is gone |
| Conversation.CompressConserves | services/ai-agent/agent_loop.py:402-440 | the pairs of the list are those of the summarised part followed by those that stay |
| Conversation.TurnAddsPair | services/ai-agent/agent_loop.py:327-400 | a turn adds exactly its own pair, at the end |
| Session.EveryRun | services/ai-agent/agent_loop.py:192-238 | every run ends, with whole pairs behind its head up to one last reply, every appended pair live or in the input of exactly one summary and in order, at most one marked block, each summary's index the length of its input, and total calls within the limit less one plus the last turn's width |
| Session.RunEndsAs | services/ai-agent/agent_loop.py:185-226 | every run goes on to a last state in which it still runs, and ends there: at a limit exactly when one is reached, aborted exactly when a call raises, and else as the last reply's stop reason says |
| Session.LimitsInForce | services/ai-agent/agent_loop.py:172-190 | the limits as numbers: a turn is stopped exactly at the mode's calls or seconds, or at an override that is neither missing nor zero |
| Session.ReachedCarries | services/ai-agent/agent_loop.py:192-238 | a run that has got to a turn has appended exactly the pairs of its turns, in order, with their results, and counted exactly their calls |
| Session.CompressesIff | services/ai-agent/agent_loop.py:202-206 | a turn compresses exactly above the threshold and with more than six messages, and records the summary's text and where it was cut |
| Session.HeadIsKept | services/ai-agent/agent_loop.py:436-440 | over a run the list begins with the opening message, or, once compressed, with a message that ends with the last summary |
| Session.TurnComesLast | services/ai-agent/agent_loop.py:209-210 | a turn's messages come last, after what the list was or was compressed to |
| Session.ContextIsLast | services/ai-agent/agent_loop.py:316-326 | the context size is the one the last turn reported |
| Session.BetweenTurns | services/ai-agent/agent_loop.py:202-227 | in every state in which a run is about to take another turn, the list is a head and whole pairs, at most one block is marked, and every appended pair is live or in the input of one summary |
| Session.PassSpendsBudget | services/ai-agent/agent_loop.py:185-227 | a turn after which the loop continues began below the call limit and raises the call count, which is the measure by which the run ends |
| Session.BudgetInNumbers | services/ai-agent/session_manager.py:252-264 | no run makes more than 199 calls before its last turn, under the manual overrides as under every mode; 49 in autonomous and 99 in chaos mode without them |
| Session.ManualBudgets | services/ai-agent/session_manager.py:252-264 | the manual budgets grow with the number of tests between 60 and 200 calls and between ten minutes and an hour, follow it exactly from 3 to 12 and from 4 to 20 tests, and are at their greatest from 13 and 20 tests on |
| Session.TurnsWithinTime | services/ai-agent/agent_loop.py:185-208 | a run still going before turn m found time left at every check before |
| Session.TimeInNumbers | services/ai-agent/agent_loop.py:172-208 | in numbers: less than an hour had passed at every turn of a run still going; without the manual override ten minutes in autonomous and half an hour in chaos mode; with it, up to 20 tests, three minutes a test or ten minutes |
| Session.TurnsWithinCalls | services/ai-agent/agent_loop.py:185-208 | a run still going before turn m has made at least a call a turn, and no run takes more turns than its limit leaves it calls |
| Session.RunIgnoresMarkers | services/ai-agent/agent_loop.py:240-252 | through any mix of turns and compressions every run ends with the conversation, up to markers, the transcript, the summaries and the calls of the run that never marks |
| AgentLoop.Loop.ApplyMessageCacheBreakpoint | services/ai-agent/agent_loop.py:240-252 | the in-place loop over messages and blocks leaves the conversation unmarked but for the last block of list content |
| AgentLoop.Loop.CollectBlocks | services/ai-agent/agent_loop.py:327-339 | builds the assistant content and the call list from the final message, dropping other kinds of block |
| AgentLoop.Loop.ExecuteCalls | services/ai-agent/agent_loop.py:343-396 | executes the calls in order, one result per call with its id, and counts each |
| AgentLoop.Loop.StreamTurn | services/ai-agent/agent_loop.py:254-400 | one turn's whole effect on the loop's fields, an API error included |
| AgentLoop.Loop.CompressContext | services/ai-agent/agent_loop.py:402-445 | nothing up to six messages; else the summary and its index are recorded and everything but the last four messages replaced, or the run aborts when the summary call raises |
| AgentLoop.Loop.Run | services/ai-agent/agent_loop.py:192-238 | the loop ends, in the state that the run function describes |
| Breakpoints.OnlyLastIsMarked | services/ai-agent/agent_loop.py:240-252 | after marking a block is marked if and only if it is the last block of list content |
| Breakpoints.UnmarkMarked | services/ai-agent/agent_loop.py:240-252 | marking changes nothing but markers |
| Breakpoints.MarkedIdempotent | services/ai-agent/agent_loop.py:240-252 | marking again changes nothing |
| Breakpoints.ConversationIsRead | services/ai-agent/agent_loop.py:240-252 | every role, text, block, call, result and marker can be read back from the JSON that goes to the model |
| Breakpoints.MarkingIsErasable | services/ai-agent/agent_loop.py:447-457 | the cleaned marked conversation equals the cleaned unmarked one |
| Breakpoints.TranscriptExactIff | services/ai-agent/agent_loop.py:451-457 | the transcript is the unmarked conversation word for word if and only if no tool input has a cache_control key inside |
| Json.CleanHasNoMarker | services/ai-agent/agent_loop.py:451-456 | cleaning leaves no cache_control key anywhere |
| Json.CleanIsIdentityIff | services/ai-agent/agent_loop.py:451-456 | cleaning is the identity exactly on values without such a key |
| Ledger.RecordClaimsNextChunk | services/ai-agent/tools/verdicts.py:139-178 | a recording claims exactly the session's first 400 unclaimed eligible invocations, changes no other row of the log, and stores their number and whether more were left |
| Ledger.RecordStores | services/ai-agent/tools/verdicts.py:238-341 | the stored row has the verdict given, but inconclusive for a pass or fail with nothing executed, the numbers of steps and of those that change state, and the id it had or a new one |
| Ledger.RankCounts | services/ai-agent/tools/verdicts.py:147-160 | the rank by which the first rows are taken counts the claimable rows before a position |
| Ledger.RestGoesToNextVerdict | services/ai-agent/tools/verdicts.py:158-160 | what stays unclaimed is what did not fit; it is nothing exactly when the trail is not marked truncated |
| Ledger.GateIff | services/ai-agent/tools/verdicts.py:247-264 | a pass or fail is stored as such if and only if the session has executed something since its last verdict, and is downgraded to inconclusive otherwise |
| Ledger.RecordAllOrNothing | services/ai-agent/tools/verdicts.py:220-341 | a recording is stored exactly when its arguments are valid and the transaction commits; a row keeps its id and other rows are untouched; otherwise nothing changes |
| Ledger.RecordKeeps | services/ai-agent/tools/verdicts.py:240-341 | every recording, even one whose claim query raises, keeps the prefix, ownership, distinct ids and evidence invariants |
| Ledger.ClaimsStay | services/ai-agent/tools/verdicts.py:332-341 | a recording never changes a claimed invocation |
| Ledger.OneVerdictEach | services/ai-agent/tools/verdicts.py:332-341 | a claimed invocation belongs to exactly one verdict row, the one of its session and slug |
| Ledger.OverlapKeepsEvidenceIff | services/ai-agent/tools/verdicts.py:238-341 | if a second recording, of another test, reads the trail before the first has claimed it, every stored pass or fail still owns an invocation exactly when there was nothing to claim or the second row already owned something |
| Ledger.OverlapLosesEvidence | services/ai-agent/tools/verdicts.py:238-341 | two overlapping recordings of which the second stores a pass that owns nothing |
| Ledger.PicksMember | services/ai-agent/tools/verdicts.py:147-160 | the claim query returns exactly the first claimable rows up to its limit |
| Ledger.CutPicks | services/ai-agent/tools/verdicts.py:156-160 | fetching one row over the cap and cutting it is fetching up to the cap |
| Executor.EveryLedger | services/ai-agent/tool_executor.py:73-122 | after any tool calls and closings of any sessions: claimed eligible invocations are a prefix of each session's log, each belongs to the one row of its slug, and every stored pass or fail owns one, through re-recordings and downgrades |
| Executor.ClaimsAreForever | services/ai-agent/tool_executor.py:73-122 | over any run a claimed invocation never changes and a verdict row keeps its id |
| Executor.VerdictCallRecords | services/ai-agent/tool_executor.py:100-122 | a verdict call with valid arguments, a session and a working database stores its verdict, claims exactly the session's first 400 claimable rows, and changes nothing else but its own audit row |
| Executor.OtherCallRecordsNothing | services/ai-agent/tool_executor.py:100-122 | any other call leaves the verdict rows and the log before it as they were |
| Executor.SucceedsIff | services/ai-agent/tool_executor.py:117-121 | a verdict call succeeds exactly when it records |
| Executor.CurrentIff | services/ai-agent/tool_executor.py:85-121 | after any events of any sessions a session's current test is the one last started, if no later call started another or recorded its verdict |
| Executor.OwnRowIsFree | services/ai-agent/tool_executor.py:106-115 | a verdict call's own invocation is appended after its claim, unclaimed and not eligible |
| Executor.CurrentClosedIff | services/ai-agent/tool_executor.py:117-121 | a verdict call closes the current test exactly when its arguments are valid, its transaction commits, and it is of that test |
| Executor.RowsAre | services/ai-agent/tool_executor.py:85-115 | every audited call of a session appends exactly its own row: a primitive tool's carries the current test, reading a definition makes its test the current one first, verdicts and plans carry the slug they are given |
| Executor.CloseOutCompletes | services/ai-agent/session_manager.py:214-250 | after a successful close-out every selected test has a row, earlier rows are unchanged, each new row is a blocked one of a selected test, and the log is unchanged |
| Executor.ClosingCompletes | services/ai-agent/session_manager.py:214-250 | closing a session writes its missing verdicts exactly in manual mode with a working database, and changes nothing else |
| Executor.CloseOutCountIff | services/ai-agent/session_manager.py:225-247 | the returned count is the number of rows written if and only if no missing test was selected twice |
| LedgerObjects.Database.ClaimTrail | services/ai-agent/tools/verdicts.py:139-178 | the loop over the fetched rows returns the first 400 claimable rows, whether there are more, and how many of them change state |
| LedgerObjects.Database.RecordTestVerdict | services/ai-agent/tools/verdicts.py:201-356 | checks, claim, gate and upsert in the code's order give the specified tables and response |
| LedgerObjects.Database.GateAndStore | services/ai-agent/tools/verdicts.py:244-341 | the gate, the upsert and the claim of one transaction |
| LedgerObjects.Database.RecordMissingVerdicts | services/ai-agent/session_manager.py:214-250 | the insert loop gives the specified tables and count, and a failure rolls all of it back |
| LedgerObjects.ToolExecutor.Execute | services/ai-agent/tool_executor.py:73-122 | current test, dispatch, audit row and closing of the test in the code's order |
| Abi.RoundTrip | services/test-runner/executors/portal_deposit.py:99-177 | a general decoder of the Contract ABI recovers exactly the encoded arguments, for byte strings of any length that fits a word |
| Abi.AcceptsOnlyEncodings | services/test-runner/executors/portal_deposit.py:99-177 | whatever the decoder accepts is encoded there: static values in their head words, byte strings with length and zero padding where their head words point |
| Abi.AcceptsOnlyCalls | services/test-runner/executors/portal_deposit.py:99-177 | what is accepted as a call is "0x" and the hex text of a selector and accepted arguments |
| Abi.EncodeInjective | services/test-runner/executors/portal_deposit.py:99-177 | no two argument lists of the same types share an encoding |
| Abi.OffsetPointsAtOwnTail | services/test-runner/executors/portal_deposit.py:128-141 | the head word of every dynamic argument is the offset of its own length word and padded content, behind all heads and aligned |
| Abi.CallRoundTrip | services/test-runner/executors/portal_deposit.py:99-177 | selector and arguments are recovered from the hex calldata of a call |
| Calldata.PaddingsAgree | services/ai-agent/tools/payload_gen.py:71-78 | the three padding formulas all reach the least multiple of 32 not below the length |
| Calldata.AddressUintFaithful | services/test-runner/executors/portal_deposit.py:119-125 | calldata of one address and one number is the ABI encoding and decodes to its selector, the address and the number, for every selector, all addresses and all numbers below 2^256 |
| Calldata.AddressUintRaisesIff | services/test-runner/executors/portal_deposit.py:119-125 | the encoder raises exactly for a number that does not fit 256 bits |
| Calldata.MintFaithful | services/test-runner/executors/portal_deposit.py:404-408 | so for mint, of ERC20 and ERC721 tokens |
| Calldata.ApproveFaithful | services/test-runner/executors/portal_deposit.py:412-416 | so for approve |
| Calldata.SetApprovalFaithful | services/test-runner/executors/portal_deposit.py:154-160 | the same for setApprovalForAll |
| Calldata.Erc1155MintFaithful | services/test-runner/executors/portal_deposit.py:144-151 | the same for the ERC1155 mint |
| Calldata.Erc20DepositFaithful | services/test-runner/executors/portal_deposit.py:419-427 | the same for depositERC20Tokens with empty data |
| Calldata.Erc721DepositFaithful | services/test-runner/executors/portal_deposit.py:128-141 | the same for depositERC721Token with two empty byte strings |
| Calldata.Erc1155DepositFaithful | services/test-runner/executors/portal_deposit.py:163-177 | the same for depositSingleERC1155Token |
| Calldata.DepositEtherFaithful | services/test-runner/executors/portal_deposit.py:104-116 | the same for depositEther with a byte string of any length |
| Calldata.ExecBytesAre | services/test-runner/executors/portal_deposit.py:112-116 | an empty data text and "0x" are no bytes, other text is read as hex with or without the prefix, and text that cannot be read raises |
| Calldata.AddInputFaithful | services/test-runner/executors/chain.py:27-49 | the same for addInput with a payload of an even number of digits, in any letter case, with or without "0x", with spaces anywhere |
| Calldata.TextAndByteEncodersAgree | services/test-runner/executors/chain.py:39-49 | the hex-text encoder and the byte encoder give the same calldata after the selector, for every payload of digits and spaces, with or without prefix, that the byte encoder reads |
| Calldata.AddInputCanonicalIff | services/test-runner/executors/chain.py:42-47 | the length and body of a digit text are the encoding of some byte string if and only if the number of digits is even, or the last digit is a zero that falls into the padding |
| Calldata.StripKeepsValue | services/test-runner/executors/voucher_v2.py:753-757 | stripping leading "0x" characters and filling with zeros keeps every value of up to 256 bits |
| Calldata.SubmitClaimFaithful | services/test-runner/executors/voucher_v2.py:753-757 | submitClaim calldata is, up to letter case, the ABI encoding of application, block number and claim hash, and decodes to them, for a claim hash of up to 32 bytes in any letter case |
| Calldata.StructuredUintFaithful | services/ai-agent/tools/payload_gen.py:62-64 | the structured number payload decodes to its number |
| Calldata.StructuredAddressFaithful | services/ai-agent/tools/payload_gen.py:66-69 | the structured address payload decodes to its address |
| Calldata.StructuredStringFaithful | services/ai-agent/tools/payload_gen.py:71-78 | the structured string payload decodes to its text |
| Hex.FromHexToHex | services/test-runner/executors/portal_deposit.py:112-116 | reading hex text gives back the bytes it was written from |
| Hex.BigEndianRoundTrip | services/test-runner/executors/portal_deposit.py:124-124 | a number written in a width it fits is read back |
| Hex.ZFillNatHexIsToHex | services/test-runner/executors/chain.py:44-44 | the hex text of a number, filled with zeros, is the text of its fixed-width bytes |
| BuildCache.OneBuildPerKey | services/sandbox-manager/provisioner.py:1048-1080 | in every run at most one build per key is in flight |
| BuildCache.RequestEndsIff | services/sandbox-manager/provisioner.py:1010-1109 | which steps make a request return or fail, and that it returns what was built or copied for its own application, CLI version and commit |
| BuildCache.SaveLeaves | services/sandbox-manager/provisioner.py:1083-1104 | what a copy into the cache leaves when it succeeds, breaks off or never begins, with the volume there or evicted |
| BuildCache.RestoreLeaves | services/sandbox-manager/provisioner.py:1053-1066 | a copy out of the cache changes nothing but that Docker creates an empty volume in place of a missing one |
| BuildCache.FallbackPicks | services/sandbox-manager/provisioner.py:1018-1034 | the fallback takes a most recently built volume labelled with the application and CLI version, and builds without a commit only if the listing fails or shows none |
| BuildCache.NotFoundRebuilds | services/sandbox-manager/provisioner.py:1064-1080 | a hit that Docker answers with not-found builds and saves after all |
| BuildCache.KeysAreInjective | services/sandbox-manager/provisioner.py:1041-1043 | with 40-character commits and no colon in the CLI versions a key names one application, CLI version and commit |
| BuildCache.ColonCollides | services/sandbox-manager/provisioner.py:1041-1043 | a colon in a CLI version lets two applications share a key |
| BuildCache.CacheIsTransparent | services/sandbox-manager/provisioner.py:1010-1109 | in every run with colon-free CLI versions and repositories that stay put between ls-remote and clone, whatever copies fail and whatever is evicted: a complete snapshot is the fresh build of the resolved commit, or, for the fallback, a build of some commit, always of the application and CLI version asked for |
| BuildCache.RestoreIff | services/sandbox-manager/provisioner.py:1050-1068 | at every hit that is reached, what is restored is the resolved commit's build if and only if the volume is there and complete |
| BuildCacheRuns.HitIff | services/sandbox-manager/provisioner.py:1050-1068 | when the copies into its volume succeed: if and only if the volume is there and not the empty one that Docker creates for an evicted name |
| BuildCache.FallbackIff | services/sandbox-manager/provisioner.py:1018-1034 | what the fallback restores is the build its volume's label names, of the application and CLI version asked for, if and only if the volume is still there and complete |
| BuildCacheRuns.UnlockedFallbackIff | services/sandbox-manager/provisioner.py:1018-1034 | when the copies into its volume succeed: if and only if the volume is there, not empty, and not being filled by another request at that moment |
| BuildCacheRuns.KeptKeysAreFresh | services/sandbox-manager/provisioner.py:1010-1109 | a resolved request whose key is never evicted, and saves into which succeed, gets the fresh build, whatever happens to other keys, failing saves included, and to the fallback |
| BuildCacheRuns.RebuildIff | services/sandbox-manager/provisioner.py:1083-1104 | after a save that failed, with no eviction of the key meanwhile, the next request for it rebuilds if and only if not even the cache volume was created |
| BuildCacheRuns.FailedCopyPoisons | services/sandbox-manager/provisioner.py:1085-1102 | a run from the empty cache in which a copy into the cache breaks off and the next request for the commit hits and gets a partial snapshot |
| BuildCacheRuns.CloneIff | services/sandbox-manager/provisioner.py:1010-1092 | a clone leaves every complete snapshot handed out later the right build, whatever follows, exactly when the repository's head is still the commit that ls-remote saw |
| BuildCacheRuns.MovedHeadIsStoredUnderOldKey | services/sandbox-manager/provisioner.py:1010-1092 | a run in which the repository moves between ls-remote and clone and the new build is stored under the old commit |
| BuildCacheRuns.EvictedHitIsEmpty | services/sandbox-manager/provisioner.py:1053-1066 | a run in which a volume evicted between lookup and copy is restored as an empty snapshot, and the empty volume Docker leaves behind is the next request's hit |
| BuildCacheRuns.FallbackMeetsUnfinishedCopy | services/sandbox-manager/provisioner.py:1018-1034 | a run in which the fallback, which takes no lock, copies a volume that is still being filled |
| BuildCacheObjects.Provisioner.FindLatest | services/sandbox-manager/provisioner.py:1145-1179 | in any listing order, a most recently built volume of the application and CLI version; none if there is none or the listing raises |
| BuildCacheObjects.Provisioner.SaveSnapshot | services/sandbox-manager/provisioner.py:1208-1238 | replaces the cache volume; a copy that fails leaves the labelled, partial one |
| BuildCacheObjects.Provisioner.EvictOld | services/sandbox-manager/provisioner.py:1277-1312 | the removal loop takes exactly the oldest volumes beyond the limit, less those whose removal fails, and nothing if the listing raises |
| BuildCacheObjects.Provisioner.GetOrBuildApp | services/sandbox-manager/provisioner.py:978-1109 | snapshot and cache after a hit, a miss, a fallback and a fresh build, with every failure |
| BuildCacheObjects.HitOfCleanIsFresh | services/sandbox-manager/provisioner.py:1050-1068 | a hit in a clean cache is the fresh build of the resolved commit |
| BuildCacheObjects.SavingKeepsClean | services/sandbox-manager/provisioner.py:1083-1098 | saving an unmoved commit with a successful copy, and evicting, keeps the cache clean |
| BuildCacheObjects.SavedIsLatest | services/sandbox-manager/provisioner.py:1083-1104 | a saved build is what the fallback takes next, unless the clock has gone back |
| Eviction.EvictionKeepsNewest | services/sandbox-manager/provisioner.py:1277-1312 | exactly min(n, keep_n) volumes of the application remain, none older than an evicted one; other volumes are untouched; a strictly newest one survives a limit of at least one |
| Eviction.SurvivesIff | services/sandbox-manager/provisioner.py:1277-1312 | a volume survives in whatever order Docker lists the volumes exactly when fewer than keep_n others of its application are at least as new |
| Eviction.EvictedIff | services/sandbox-manager/provisioner.py:1277-1312 | whatever removals fail, exactly the volumes whose removal fails stay besides, and no volume of another application goes |
| Eviction.SortSorts | services/sandbox-manager/provisioner.py:1302-1305 | the stable sort puts the volumes in order of age |
| Eviction.SortPermutes | services/sandbox-manager/provisioner.py:1302-1305 | and keeps every volume exactly once |
| Eviction.TieEvictsEither | services/sandbox-manager/provisioner.py:1302-1306 | of two volumes of the same second the one listed first goes, which may be the one just saved |
| AnvilCache.LookupIsMatched | services/sandbox-manager/provisioner.py:695-748 | with one writer per key that saves only on a miss, wherever saves stop, the lookup finds nothing or state and sidecar of one finished save |
| AnvilCache.OverlapIff | services/sandbox-manager/provisioner.py:379-383 | wherever the saves so far have got to, a further provision leaves every pair found later matched exactly when it begins no save beside another: none is under way, or it hits |
| AnvilCache.StoppedIsRetried | services/sandbox-manager/provisioner.py:379-383 | a save that stops, wherever it has got to, leaves a miss, and the next provision can save to the end and be found |
| AnvilCache.SecondRenameRaises | services/sandbox-manager/provisioner.py:734-738 | of two saves that share a temporary file the second to come to its rename cannot go on |
| AnvilCache.HitIsStable | services/sandbox-manager/provisioner.py:379-383 | a pair once found stays, through every later provision |
| AnvilCache.StepsOutcome | services/sandbox-manager/provisioner.py:713-748 | an undisturbed save ends in its own matched pair, and leaves the sidecar alone if stopped before its last rename |
| AnvilCache.ResaveMismatch | services/sandbox-manager/provisioner.py:734-747 | a save that finds a pair in place and stops between its renames pairs its state with the old sidecar |
| AnvilCache.TwoWritersMismatch | services/sandbox-manager/provisioner.py:734-747 | a run from the empty directory in which two provisions miss and both save, and the sidecar of one is found with the state of the other |
| AnvilCache.KeysAgreeIff | services/sandbox-manager/provisioner.py:691-693 | two contract versions share a key exactly when their sanitised names agree; for names of safe characters, exactly when they are equal |
| AnvilCache.VersionsAgreeIff | services/sandbox-manager/provisioner.py:691-693 | versions of safe characters have the same key exactly when they are equal, and that of a missing version exactly when they are "devnet" |
| AnvilCache.RevisionsAgreeIff | services/sandbox-manager/provisioner.py:691-693 | a version's keys for two revisions agree exactly when the revisions do once sanitised |
| AnvilCache.SanitizedIs | services/sandbox-manager/provisioner.py:691-693 | sanitising leaves letters, digits, ".", "_" and "-", and turns every other character into an underscore |
| AnvilCache.CacheDir.Save | services/sandbox-manager/provisioner.py:713-748 | the files after a save that stops after any number of its steps |
| LogBuffer.BatchesAreHistory | services/sandbox-manager/log_buffer.py:75-125 | over every interleaving of threads and timer: the drained batches in drain order followed by the buffer are the append history, and the buffer is shorter than the threshold but for one line per thread owing a flush |
| LogBuffer.EachBatchOnce | services/sandbox-manager/log_buffer.py:111-125 | a batch goes to the callback at most once, and exactly once when no thread is inside |
| LogBuffer.AppendFlushesIff | services/sandbox-manager/log_buffer.py:75-92 | an append adds its line at the end, and its thread goes on to flush exactly at the threshold |
| LogBuffer.FlushGoesThrough | services/sandbox-manager/log_buffer.py:94-125 | a thread that flushes or stops can hand all that is in the buffer to the callback in one batch and is out again |
| LogBuffer.StoppedIsEmpty | services/sandbox-manager/log_buffer.py:98-103 | after stop has drained, with no append since, the buffer is empty and every line was in a batch |
| LogBuffer.SerialIsInOrder | services/sandbox-manager/log_buffer.py:111-125 | batches reach the callback in drain order while none is drained during another's delivery |
| LogBuffer.DrainIff | services/sandbox-manager/log_buffer.py:111-125 | a further drain leaves the batches in order, whatever follows, exactly when it finds the buffer empty or no other batch being delivered |
| LogBuffer.DeliveryCanOvertake | services/sandbox-manager/log_buffer.py:111-125 | a run in which a later batch is delivered first |
| LogBuffer.MakeEntry | services/sandbox-manager/log_buffer.py:80-85 | an entry keeps the first 64 characters of its source and 4096 of its message, or all of them, its level and its time |
| LogBatchBuffers.LogBatchBuffer.Append | services/sandbox-manager/log_buffer.py:75-92 | one thread's append: the clipped entry joins the buffer, which is drained and handed over exactly when the threshold is reached |
| LogBatchBuffers.LogBatchBuffer.DoFlush | services/sandbox-manager/log_buffer.py:111-125 | drains everything into one batch and hands it over, or nothing when empty |
| LogBatchBuffers.LogBatchBuffer.Stop | services/sandbox-manager/log_buffer.py:98-101 | sets the stop flag and flushes |
| LogBatchBuffers.LogBatchBuffer.LockedDrain | services/sandbox-manager/log_buffer.py:113-117 | the swap under the lock is the drain step of the interleaving model |
| Catalog.ChainHolds | services/github-watcher/poller.py:254-346 | over any sequence of node, CLI and contracts upserts every link that is set points at a row, no set link becomes null, and no row goes |
| Catalog.ProcessedIsListed | services/github-watcher/poller.py:254-346 | every release that was processed is listed from then on |
| Catalog.CliTagsSurvive | services/github-watcher/poller.py:488-531 | no number of CLI and contracts releases changes a cli_tag that is set |
| Catalog.CliLinksAre | services/github-watcher/poller.py:462-517 | a CLI release's row gets the links it brings and keeps those it had otherwise; no other CLI row changes; exactly a release that was there without a CLI is backfilled, and no other release changes |
| Catalog.NodeLinksAre | services/github-watcher/poller.py:287-340 | a node release's row gets the CLI that was resolved or keeps its own, and the resolved links below win; before major version 2 nothing below changes, and no other release ever |
| Catalog.CliMovesSharedDevnet | services/github-watcher/poller.py:444-531 | a CLI release changes the contracts version of a node with another CLI exactly by shipping its devnet with a contracts version of its own |
| Catalog.CliResolution | services/sandbox-manager/consumers/sandbox_queue.py:627-657 | what every release resolves to after a CLI release, read from the tables before it |
| Catalog.CliBreaksIff | services/github-watcher/poller.py:444-531 | a CLI release takes the contracts version from a release exactly when it moves that release's CLI, which is its own, to a devnet that has none and brings none |
| Catalog.NodeResolution | services/sandbox-manager/consumers/sandbox_queue.py:627-657 | what every release resolves to after a node release, read from the tables before it |
| Catalog.NodeBreaksItselfIff | services/github-watcher/poller.py:287-340 | a node release takes its own contracts version exactly when the CLI then in force has and gets no devnet, or one that has no contracts version and gets none |
| Catalog.NodeBreaksOtherIff | services/github-watcher/poller.py:287-340 | it takes another release's exactly when it moves that release's CLI to a devnet that has none and brings none |
| Catalog.NodeCanBreakAnother | services/github-watcher/poller.py:287-340 | from an empty catalog, a node release resolves and a second one makes the first resolve no more |
| Catalog.OrderAgreesIff | services/github-watcher/poller.py:488-531 | a new node and the CLI release that mentions it end with the same cli_tag in both orders if and only if the resolver found a CLI |
| Catalog.Database.NodeRelease | services/github-watcher/poller.py:254-346 | the transaction's statements, none of them ever refused, leaf to root |
| Catalog.Database.CliRelease | services/github-watcher/poller.py:394-533 | the same for a CLI release, with the node it backfills |
| Catalog.Database.ContractsRelease | services/github-watcher/poller.py:667-693 | the same for a contracts release |
| Vouchers.OneLateClaimPerEpoch | services/test-runner/executors/voucher_v2.py:541-640 | whatever the node and the clock do, one poll call sends at most one manual claim per epoch, and none sooner than 60 s after first meeting the epoch as computed |
| Vouchers.RestartsAskedLate | services/test-runner/executors/voucher_v2.py:641-650 | one poll call asks for no validator restart sooner than 45 s after it first met the epoch as waiting |
| Vouchers.SendsIff | services/test-runner/executors/voucher_v2.py:605-631 | a claim is sent exactly when the epoch is computed, was not submitted before and was first met at least the delay ago |
| Vouchers.AsksIff | services/test-runner/executors/voucher_v2.py:641-650 | a restart is asked for exactly when the epoch has waited for the validator as long as its delay |
| Vouchers.CandidatesComplete | services/test-runner/executors/voucher_v2.py:587-597 | no new output of voucher type is missed |
| Vouchers.CandidatesConcat | services/test-runner/executors/voucher_v2.py:587-597 | the candidates of two lists are those of the first followed by those of the second, so nothing else is listed and in the node's order |
| Vouchers.NoPassMissed | services/test-runner/executors/voucher_v2.py:541-671 | before the call answers, every pass was before the deadline and failed or found too few |
| Vouchers.PassTakesReady | services/test-runner/executors/voucher_v2.py:599-655 | a pass that is not aborted takes, in order, exactly the vouchers whose epoch is claimed, or is computed and was submitted before or is accepted now |
| Vouchers.PassAbortsIff | services/test-runner/executors/voucher_v2.py:605-631 | a pass is aborted exactly by a submission that raises |
| Vouchers.AnswerIs | services/test-runner/executors/voucher_v2.py:541-671 | the call answers at the first pass that is answered, not aborted and finds as many vouchers as wanted, with all of these, and with nothing at the first pass whose clock has reached the deadline |
| Vouchers.PassTakesPrematureIff | services/test-runner/executors/voucher_v2.py:599-640 | a pass takes a voucher that is neither claimed nor of an epoch whose submission was accepted exactly when it meets one as computed whose epoch has failed |
| Vouchers.AnswerIsPrematureIff | services/test-runner/executors/voucher_v2.py:541-671 | and a poll call returns one exactly when the pass that answers meets a voucher as computed after a submission for its epoch failed, in that pass or an earlier one |
| Vouchers.PollingAnswers | services/test-runner/executors/voucher_v2.py:541-671 | an answer is empty or has enough vouchers, all new, of voucher type, listed by one pass before the deadline, and of an epoch that is claimed or had a submission tried |
| Vouchers.SecondOfFailedEpochIsTaken | services/test-runner/executors/voucher_v2.py:613-631 | a poll call of two passes that returns a voucher whose epoch's only submission failed |
| Vouchers.FilterNew | services/test-runner/executors/voucher_v2.py:587-597 | keeps exactly the new outputs of voucher type, in order |
| Vouchers.ClaimedOf | services/test-runner/executors/voucher_v2.py:599-655 | the loop over one pass's vouchers, an exception in it included |
| Vouchers.PollVouchers | services/test-runner/executors/voucher_v2.py:519-671 | the polling loop ends with the specified answer |
| Vouchers.RestartsAreSpaced | services/test-runner/executors/voucher_v2.py:783-800 | whichever tests ask, the restarts of one sandbox are at least 120 s apart |
| Vouchers.NextRestartIff | services/test-runner/executors/voucher_v2.py:783-800 | after any requests the next one restarts exactly when the cooldown since its sandbox's last restart is over |
| Vouchers.FirstRestartIff | services/test-runner/executors/voucher_v2.py:792-798 | a sandbox's first request restarts exactly when the clock has itself reached the cooldown |
| Vouchers.Restarter.MaybeRestart | services/test-runner/executors/voucher_v2.py:783-800 | restarts and records the time exactly outside the cooldown |

## Left out

- Docker, RabbitMQ, Redis, HTTP, git, Foundry and the model API: each is a step that succeeds, fails or answers arbitrarily.
- SQL text and isolation: a table is a map or a sequence and a transaction one atomic update; creation times are positions in the log.
- Keccak selectors and SHA-256: selectors are constants, hashes of cache keys and repository names are taken as injective.
- Executor.Records: the white space that makes a slug or reasoning blank is ASCII's; the Unicode spaces that `strip` also drops are not modelled.
- Names that only label things, such as the summary's heading and the prefixes of Docker names, and selector constants: they stand as the code has them, and nothing is proved of them beyond where they must agree.
- Retries with backoff in the model call and in ls-remote: only the final outcome of the call is modelled.
- AgentLoop.Loop.ApplyMessageCacheBreakpoint: blocks are values, so two list entries that are the same Python dictionary are not captured; the loop never makes such entries.
- AgentLoop.Loop.CompressContext: the summary prompt's text is left out; the 0.4 factor is taken as the exact fraction rounded down.
- The bounded tool output, the shaping of tool results, the events sent to the dashboard, and the size limit of the transcript.
- Collaborative and interactive sessions: they drive single turns from loops of their own that never compress; autonomous and chaos sessions are the ones that `run()`.
- LedgerObjects.Database.RecordTestVerdict: provenance columns, the definition snapshot, evidence checks and digests of steps are stored next to what is modelled and influence nothing else; whether a step changes state is an input.
- The table of test plans: one upsert that nothing modelled reads.
- LedgerObjects.Database.RecordInvocation: the counter on the session row follows the log's length and is left out.
- Port offsets, the sandbox metadata and the waiting for tests: a handler's wait ends at an arbitrary time.
- Reaper.PassLeavesOnlyActive: volumes and build directories are collected by name; what is proved of them is Docker.ActiveIsSafe and Docker.VolumeWithoutContainerStays.
- Docker.Host.Teardown: stopping the log threads, stopping a container before its removal and disconnecting a network's endpoints are part of the step that removes it.
- Calldata.AddInputFaithful: an address is its 42-character text form; letter case is that of ASCII.
- Calldata.StructuredStringFaithful: the random choices are arbitrary inputs, and the text is given as its UTF-8 bytes.
- BuildCache.RestoreIff: a copy out of a volume is one step, so a volume is not evicted while it is being read; Docker refuses to remove a volume in use.
- BuildCache.CacheIsTransparent: a build is determined by repository, CLI version and commit; builds that depend on anything else are not captured.
- BuildCacheObjects.Provisioner.GetOrBuildApp: one request at a time; concurrent requests, and a restore that Docker answers with not-found, are in module BuildCache.
- AnvilCache.LookupIsMatched: an unreadable sidecar counts as a miss, and the contents of the state file are not inspected, as in the code.
- LogBuffer.BatchesAreHistory: the age of a batch is a clock's matter; a due tick of the timer may come at any time.
- Catalog.ChainHolds: only the link columns and the major version are modelled; channels, labels, counts and texts are overwritten by every upsert.
- Version parsing in release bodies and the resolver: each found version is an optional input.
- The executors around the calldata, the health, log, metrics and GraphQL checks, and the compose file writer are not modelled.
