# Verified models of the agent's state machines

The agent watches alerts, asks an LLM about them, and keeps durable state about its own
health, spending and history. Six of its state machines promise something about every
run, crashes and races included. This project models them in Dafny and proves the
promises, or proves exactly when they hold where they do not hold always.

`dafny verify dfyconfig.toml` checks everything.

| files | system |
|---|---|
| `Health`, `TrackerSpec`, `Tracker`, `LateRoots`, `Runner` | LLM health: capability verdicts, the roll-up into outage episodes, Slack root delivery, and the one goroutine that drives it |
| `SlackSystem`, `RollUp`, `SlackSafety`, `SlackTheorems`, `LateFairness`, `CapabilityTraces` | the same as a transition system, its invariants, and the results over all runs |
| `SlackDelivery`, `Observations`, `RunnerFairness` | what each pass sends, what each observation writes down and when a probe runs, field by field; and that the runner's turns get round to everything |
| `LimiterSpec`, `Limiter` | the inference limiter: one capacity, one profile slot, two FIFO queues, cancellation |
| `AuditHash`, `AuditSpec`, `Auditor` | the hash-chained audit log and its anchored pruning |
| `BudgetSpec`, `BudgetCalls`, `BudgetTokens`, `Budget`, `BudgetRuns` | the durable LLM budget: calls per hour and total tokens, over ledgers and over the stored document |
| `RestoreSpec`, `Restore` | database restore, staged and offline, interrupted anywhere |
| `Text`, `GroupKeys`, `Drill` | group-key printing and parsing, the drill's labels, and its rerun matcher |
| `Option`, `Sequences` | what the others share: optional values, distinctness, sorting |

Each piece has the same shape. What an operation does to a value is a function (`...Spec`).
The program's object is a class whose methods update its fields step by step and are
proved to do exactly what the function says. The results are lemmas about the functions
over arbitrary lists of events: every event is total (one that cannot happen changes
nothing), so every list is a run and nothing is assumed about order. For the health
tracker, `Runner` closes the circle: whatever callers and Slack do between its steps, the
real objects are always where some run of the transition system is, so the results about
runs are results about them.

Assumptions, all visible in contracts:

- Time is an integer number of nanoseconds handed to each operation; a store write
  commits or changes nothing, and its outcome is an argument (`saved`).
- Slack timestamps are unique, and an edit that returns an error changed nothing.
- The audit hash is collision-free and its digests are non-empty and hold no separator;
  times and anchors read back from their text (`AuditHash.EnvOk`).
- Renames and removals are atomic and ordered, and no other process has the database open.

## Where the code and its documentation part

The models follow the code.

- A content-class verdict is documented as cleared only by that capability's own success
  (`internal/llmhealth/reason.go:20-25`). A dependency failure overwrites the verdict, and
  then any shared-primary success clears it: `HealedByAnotherExactlyWhen` gives the exact
  guard, `ContentVerdictCanBeHealedFromElsewhere` a trace.
- A root waiting for its recovery edit is forgotten when a new outage begins first
  (`internal/llmhealth/tracker.go:615-622`): `ARootCanBeAbandoned` is a run, and
  `AbandonedExactlyWhenAnOutagePreempts` says, from the state before an event, exactly
  which events do it.
- The audit separator is documented as ruling out concatenation collisions. It does so
  exactly when neither actor nor kind holds it: `UnambiguousExactlyWhenPlain`; two
  different accepted requests that collide are in `AcceptedRequestsCanCollide`.
- A verified log is documented as naming the last entry removed. It does so at every point
  of a run exactly when no append misleads: under the retention kind, naming the last
  removed hash and claiming a smaller seq (`TheReportedAnchorIsExact`). Nothing in the
  repository but retention writes that kind, so such a row can enter only through the
  exported `Append`; it would be reported until the next removal
  (`AForgedAnchorIsReported`, `ReportedAfter`).
- `drillGroupKey` is documented as mirroring the correlator's key. It does so exactly when
  no grouping label goes on from another with a character below `=`, for trimmed labels
  without comma or `=` and values without comma: `RenderersAgreeExactlyWhen`. For labels
  that do not begin one another it always does (`RenderersAgreeWithoutPrefixes`), and for
  `host` and `host2` never (`RenderersDisagree`).
- `materializeScenario` is documented as salting the first effective key and salts entry 0
  of the list. For every list that configuration validation lets through
  (`internal/config/config.go:1246-1265`) that is the same, and the salt survives:
  `ValidatedKeepsTheSalt`.
- A rerun match is documented as landing on the incident found. It does so exactly when
  the incident's key is the correlator's printing of exactly the labels grouped by now:
  `AMatchCollapsesExactlyWhen`. `DroppingALabelMissesTheDrill` is a family where it fails.
- A drill is documented as finding its own earlier run. A configured label that holds a
  comma or "=" passes validation and makes every rerun miss:
  `RerunReusesTheLatestOwnSalt`.
- The safety copy holds the original after a staged restore, whatever crashes. Repeating a
  completed offline restore overwrites it: `OfflineRerunKeepsSafetyExactlyWhen`.

## Model

| member | source | states |
|---|---|---|
| SlackTheorems.OneRootPerEpisode | internal/llmhealth/slack.go:221-337 | Over every run with crashes, failed writes, rejections and unknown outcomes, an episode has at most one POST not definitely rejected and one accepted root; the stored generation is never behind a posted one and forbids reposting |
| SlackTheorems.GenerationLaw | internal/llmhealth/tracker.go:604-692 | In every reachable state the Slack generation is twice the outage generation, less one while unhealthy, and only the delivery phases of that state occur |
| SlackTheorems.LateSuccessIsNeverOrphaned | internal/llmhealth/slack.go:339-378 | A root accepted too late for its generation is never orphaned: adopted exactly when its episode just closed and none began since, otherwise queued with its own episode's duration |
| SlackTheorems.EveryRootIsAccountedFor | internal/llmhealth/slack.go:275-378 | In memory while the process lives and in the store while it does not, every accepted root is the current one, awaiting its recovery edit, recovered, abandoned or lost; stored coordinates and durations are always those of the root's own episode |
| SlackTheorems.RootsAreLostOnlyByCrashAfterFailedWrite | internal/llmhealth/tracker.go:699-714 | No root is lost while the process lives, nor across any crashes while writes succeed; then memory and store never disagree on the record |
| SlackTheorems.RecoveryEditsReportTheirOwnEpisode | internal/llmhealth/slack.go:257-264 | Whenever a recovery edit is in flight, its duration is how long that root's own episode lasted |
| SlackTheorems.RecoveredTextIsFinal | internal/llmhealth/slack.go:249-264 | A root edited to recovered is never edited back to an outage text: by the process that edited it in every run, by any process while none dies or all writes succeed |
| SlackTheorems.AbandonedExactlyWhenAnOutagePreempts | internal/llmhealth/tracker.go:614-622 | A living process stops tracking an unrecovered root exactly when that root, not queued, awaits its recovery edit and the event begins an outage, as read from the state before the event |
| SlackTheorems.ARootCanBeAbandoned | internal/llmhealth/tracker.go:614-622 | A six-event run, with no crash or failed write, that abandons its root |
| SlackTheorems.SealFreezes | internal/llmhealth/runner.go:125-139 | Once sealed, every event but the process's death leaves roll-up, generations and capability records as they were, and every call returns into the generation it was planned for |
| SlackDelivery.ARootIsPostedExactlyWhen | internal/llmhealth/slack.go:221-248 | From every reachable idle state a pass posts a root exactly when an outage without an accepted root is old enough and the marker commits; the POST names the outage's generation, state and age, and by then the store forbids another |
| SlackDelivery.APostedRootIsRecorded | internal/llmhealth/slack.go:289-321 | A due root that lands is then the record's root, delivered, in the state that was posted, in memory and in the store |
| SlackDelivery.ARejectedRootIsPostedAgain | internal/llmhealth/slack.go:289-321 | A rejected POST leaves its outage due, and the next pass that can store its marker posts again |
| SlackDelivery.AnUnansweredRootIsNotRepeated | internal/llmhealth/slack.go:289-321 | After a POST of unknown fate the record it leaves, in memory and in the store, is one that no pass posts for |
| SlackDelivery.ARecoveryIsDelivered | internal/llmhealth/slack.go:257-264 | From every reachable idle state that awaits a recovery edit, a pass edits that root with the length of its outage, and once the edit lands the root is recovered |
| SlackDelivery.AStateChangeIsDelivered | internal/llmhealth/slack.go:249-256 | A delivered root that shows another state than the present one is edited, and once the edit lands it shows the present one |
| SlackDelivery.AFailedEditIsRetried | internal/llmhealth/slack.go:269-337 | An edit that fails changes nothing, so the next pass makes it again |
| SlackDelivery.OtherwiseNothingIsSent | internal/llmhealth/slack.go:221-267 | A pass calls nobody exactly when no root is due with its marker stored, none awaits recovery and none shows a wrong state |
| SlackDelivery.LateRootsAreRecovered | internal/llmhealth/slack.go:173-219 | A pass over the queue takes out exactly the roots whose edit landed, and those are recovered |
| SlackDelivery.ALateRootIsKept | internal/llmhealth/slack.go:339-378 | A root that lands after its outage closed returns to the record while the record is still that outage's, and otherwise is queued with that outage's own length |
| SlackSafety.StepKeeps | internal/llmhealth/slack.go:81-143 | Every step of tracker, store, Slack and crashes keeps the delivery invariant |
| SlackSafety.RunKeeps | internal/llmhealth/slack.go:81-143 | So does every run |
| SlackSafety.LandedKeepsRec | internal/llmhealth/slack.go:275-378 | An accepted root joins what the record tracks, in its own episode's place or in the queue, and nothing tracked before is dropped |
| SlackSafety.RotateKeepsTracked | internal/llmhealth/slack.go:173-219 | Rotation stops tracking only roots that were edited |
| SlackSafety.CrashKeeps | internal/llmhealth/tracker.go:153-197 | A crash anywhere leaves the stored record consistent with everything Slack accepted |
| LateRoots.RotatePermutes | internal/llmhealth/slack.go:198-213 | The new queue is a permutation of the old one without the edited roots |
| LateRoots.Advances | internal/llmhealth/slack.go:166-219 | A pass that attempts something but not a given root moves that root forward |
| LateRoots.EveryRootIsTried | internal/llmhealth/slack.go:166-219 | Over any list of passes, a root at position i is attempted within i + 1 passes that attempt anything, whatever fails ahead of it and whatever is appended |
| LateFairness.EveryQueuedRootIsTried | internal/llmhealth/slack.go:162-219 | From any reachable state of the system, a queued root at position i is attempted within the next i + 1 passes that attempt anything: in any further run of the living process, and across crashes as long as writes succeed |
| LateFairness.StepAdvances | internal/llmhealth/slack.go:162-219 | Every event of the system leaves a queued root no further back, and a pass that attempts others moves it forward |
| RunnerFairness.EveryQueuedRootIsTriedByTheLoop | internal/llmhealth/runner.go:141-194 | From any reachable idle state a root at position i of the queue is attempted within the next i + 1 turns of the loop with a live context in which Slack answers a late edit |
| RunnerFairness.APassPlansAndCalls | internal/llmhealth/slack.go:90-143 | A live pass plans before anything else, and a call it planned is made and its answer applied |
| RunnerFairness.DeliverAttempts | internal/llmhealth/slack.go:90-143 | A live pass attempts a late edit if anything was queued when it began, whatever callers do and whatever became of its own call, and leaves the runner idle |
| RunnerFairness.ATurnProbesExactlyWhenDue | internal/llmhealth/runner.go:179-194 | A turn ends with a probe's return exactly when a probe was due at its decision |
| RollUp.EveryRunIsRolledUp | internal/llmhealth/tracker.go:555-602 | In every run, through crashes and failed writes, the record's state and reason are the roll-up of the capabilities beside it, in memory and in the store |
| RollUp.OutageBeginsExactlyWhen | internal/llmhealth/tracker.go:614-633 | An event begins an outage exactly when, on a healthy open tracker, a rolled-up capability's call fails for a dependency or for its second subject's content, or an unraced probe fails |
| Observations.EveryRecordShowsItsCapabilities | internal/llmhealth/tracker.go:555-592 | In every reachable state, in memory and in the store, the record is unavailable exactly while triage drafting, assessment or the probe fails, degraded exactly while only rejudging or profiling does, and names the first failing one's reason |
| Observations.DeferredCallsAreNotObserved | internal/llmhealth/tracker.go:247-262 | A cancelled call, one the budget put off and any call after the seal change the count of calls in flight and nothing else |
| Observations.ACallIsRecorded | internal/llmhealth/tracker.go:247-288 | Every other call is an activity and a real call, a real success exactly when its reason says so, and is stored when the write commits |
| Observations.ASuccessHeals | internal/llmhealth/tracker.go:422-496 | A success resets its own capability and withdraws exactly the dependency verdicts of the capabilities it shares the primary client with, and of the probe |
| Observations.ADependencyFailureCondemns | internal/llmhealth/tracker.go:498-513 | Each dependency reason condemns its capability at once, keeps an older since and touches no other capability |
| Observations.AContentFailureCounts | internal/llmhealth/tracker.go:515-553 | Each content reason condemns a healthy capability exactly when another subject is on record, gives way to a standing dependency reason, and keeps the latest eight subjects |
| Observations.ACallMovesTheEpisode | internal/llmhealth/tracker.go:604-692 | A call opens, closes or continues the episode by the state it leaves: generations, times, delivery phase, root and what an outstanding POST is told, field by field |
| Observations.AProbeIsRecorded | internal/llmhealth/tracker.go:290-338 | A probe records its time and outcome and is no real call or activity, remembers an unsupported answer until a success, and moves the episode by the state it leaves |
| Observations.AProbeIsBelievedExactlyWhen | internal/llmhealth/tracker.go:290-338 | Over any calls between decision and return, a probe's failure counts exactly when it is a dependency failure and none of them began or was observed to end; its success always does |
| Observations.AProbeIsDueExactlyWhen | internal/llmhealth/tracker.go:377-402 | Over any run since a start and before a seal, a probe is due exactly when as many calls ended as began, the idle period has passed since the last observed end, and the last probe is a minute old, or an hour if the probes' last word was unsupported |
| CapabilityTraces.TwoSubjectsCondemn | internal/llmhealth/tracker.go:515-553 | After every run, restarts included, a content failure condemns a healthy capability exactly when two distinct subjects of the remembered evidence have failed since its own last success, despite the eight-entry trim |
| CapabilityTraces.RememberedIsWhole | internal/llmhealth/tracker.go:100-106 | What a process remembers is the whole evidence unless a process died after an observation that was not stored |
| CapabilityTraces.SharedSuccessLeavesOnlyContent | internal/llmhealth/tracker.go:462-496 | After every run, crashes and failed writes included, and a success on a shared capability, the roll-up is healthy or content-class |
| CapabilityTraces.HealedByAnotherExactlyWhen | internal/llmhealth/tracker.go:479-496 | Another capability's success heals a verdict exactly when both are on the shared path and the verdict is dependency-class now |
| CapabilityTraces.ContentVerdictCanBeHealedFromElsewhere | internal/llmhealth/tracker.go:498-513 | A four-call trace in which a content verdict is overwritten and then cleared without the capability ever succeeding |
| CapabilityTraces.SeenOk | internal/llmhealth/tracker.go:247-288 | In every run the bounded lists hold all the remembered and all the stored evidence, or eight pieces of it |
| Tracker.HealthStore.Save | internal/store/llmhealth.go:107-160 | Commits record and capability rows together or changes neither; unwritten rows stay |
| Tracker.Tracker.New | internal/llmhealth/tracker.go:153-197 | A new process knows what the store knows and nothing of POSTs in flight before |
| Tracker.Tracker.Seal | internal/llmhealth/tracker.go:199-215 | Sets the cutoff and nothing else |
| Tracker.Tracker.Begin | internal/llmhealth/tracker.go:217-235 | Counts one call in flight and one activity, or nothing once sealed |
| Tracker.Tracker.Finish | internal/llmhealth/tracker.go:237-245 | The first call ends the observation, later ones and those begun after the seal do nothing |
| Tracker.Tracker.FinishCall | internal/llmhealth/tracker.go:247-288 | Memory becomes the specified observation and roll-up; the store follows when the write commits |
| Tracker.Tracker.ObserveCall | internal/llmhealth/tracker.go:271-285 | Verdicts change as the class of the reason says, shared recoveries included |
| Tracker.Tracker.ObserveProbe | internal/llmhealth/tracker.go:290-338 | A probe failure counts only if no real call began or ended since it was decided |
| Tracker.Tracker.ProbeDue | internal/llmhealth/tracker.go:377-402 | Reserves the present activity and answers whether every probe condition holds |
| Tracker.Tracker.MarkCapabilityHealthy | internal/llmhealth/tracker.go:422-437 | Clears verdict and content evidence of that capability only |
| Tracker.Tracker.MarkCapabilityUnhealthy | internal/llmhealth/tracker.go:498-513 | Names the reason and keeps an older since |
| Tracker.Tracker.AddSubject | internal/llmhealth/tracker.go:531-545 | The loop adds an unlisted subject and keeps the latest eight |
| Tracker.Tracker.RecordContentFailure | internal/llmhealth/tracker.go:515-553 | One more content failure, keeping a dependency reason |
| Tracker.Tracker.ClearSharedDependencyFailures | internal/llmhealth/tracker.go:479-496 | The loop clears exactly the other receivers' dependency verdicts and adds no record |
| Tracker.Tracker.Aggregate | internal/llmhealth/tracker.go:555-592 | The loop returns the first unhealthy capability in priority order and its severity |
| Tracker.Tracker.Recompute | internal/llmhealth/tracker.go:604-692 | Opens, closes or continues an episode, generations, duration and outstanding POST included |
| Tracker.Tracker.PlanDelivery | internal/llmhealth/slack.go:221-267 | Plans a POST only with its marker committed (a failed marker leaves no trace), a state edit for a root that shows another state, a recovery edit for one that awaits it, and nothing else |
| Tracker.Tracker.ApplyDeliveryResult | internal/llmhealth/slack.go:269-337 | The result of a call applied to the right generation, and what of it reaches the store |
| Tracker.Tracker.AdoptStaleRoot | internal/llmhealth/slack.go:339-378 | A late root orphaned, adopted or queued, and stored unless orphaned |
| Tracker.Tracker.AttemptLateEdits | internal/llmhealth/slack.go:180-196 | Splits the attempted prefix into edited and failed |
| Tracker.Tracker.RotateLateRoots | internal/llmhealth/slack.go:197-219 | Rotates the queue and writes only when something landed or moved |
| Runner.Runner.Deliver | internal/llmhealth/slack.go:90-143 | One delivery pass of the real objects, callers interleaving with each unlocked call, is exactly that run of the transition system; on a context already done it changes nothing |
| Runner.Runner.Step | internal/llmhealth/runner.go:179-194 | Delivery, callers observing before the probe decision, then a probe if due, is exactly that run |
| Runner.Runner.FinalDeliver | internal/llmhealth/runner.go:125-139 | Seals before the last pass, so whatever callers still report, from the seal on, the pass acknowledges a state that no longer moves |
| Runner.Runner.Loop | internal/llmhealth/runner.go:141-177 | Any number of turns, then seal and last pass, is exactly that run: the objects end in a reachable sealed state that keeps the delivery invariant |
| Limiter.InferenceLimiter.constructor | internal/llm/inference_limit.go:53-61 | Capacity below one is one; nothing held or waiting |
| Limiter.InferenceLimiter.TryGrant | internal/llm/inference_limit.go:97-109 | Grants exactly when a slot is free and the request is not a profile behind another one, and counts it |
| Limiter.InferenceLimiter.Enter | internal/llm/inference_limit.go:67-76 | Acquire up to its wait: granted at once or last in its own queue, invariant kept |
| Limiter.InferenceLimiter.Dequeue | internal/llm/inference_limit.go:119-134 | Removes the ticket, and only it, from its queue, or reports it was granted meanwhile |
| Limiter.InferenceLimiter.WakeNext | internal/llm/inference_limit.go:151-173 | Wakes the first assessment, else the first profile if none is held, else nobody |
| Limiter.InferenceLimiter.Release | internal/llm/inference_limit.go:136-149 | The first call gives back that slot and wakes one waiter, later ones do nothing |
| Limiter.InferenceLimiter.Cancel | internal/llm/inference_limit.go:78-94 | Leaves the queue, or gives straight back a slot granted in the meantime |
| LimiterSpec.EveryRunIsSafe | internal/llm/inference_limit.go:31-51 | In every run capacity and profile slot are never exceeded, holders are counted exactly, queues hold nobody twice, an assessment waits only while every slot is taken and a profile only while that holds or another one runs |
| LimiterSpec.AnArrivalIsSeatedExactlyWhen | internal/llm/inference_limit.go:67-109 | In every run an arrival gets a slot at once exactly when fewer slots are held than the clamped capacity and it is not a profile behind another; otherwise it stands last in its queue |
| LimiterSpec.ReleaseKeeps | internal/llm/inference_limit.go:136-173 | One wake-up per release is enough: no waiter is left who could run |
| LimiterSpec.GrantsAreFair | internal/llm/inference_limit.go:67-173 | In every run a grant goes to a queue head or to an arrival nobody of its class waits before; never to a profile while an assessment waits; one per step |
| LimiterSpec.CancelLeaksNothing | internal/llm/inference_limit.go:78-94 | In every run cancelling a waiter touches no slot and cancelling a granted ticket returns exactly its own |
| LimiterSpec.AssessmentsAreServed | internal/llm/inference_limit.go:151-173 | An assessment at position i is granted by the time i + 1 slots have been given back, whatever else happens |
| LimiterSpec.ProfilesAreServed | internal/llm/inference_limit.go:151-173 | A profile at position i is granted by the time i + 1 slots have been given back while no assessment waited and no other profile was held |
| LimiterSpec.NobodyOvertakes | internal/llm/inference_limit.go:67-173 | First come, first served within a class, through every run |
| AuditHash.PlainJoinsOnlyOnce | internal/audit/audit.go:423-437 | Fields without the separator are the only ones that join to their text |
| AuditHash.UnambiguousExactlyWhenPlain | internal/audit/audit.go:423-437 | A row's hash input is ambiguous exactly when its actor or kind holds the separator |
| AuditSpec.AcceptedRequestsCanCollide | internal/audit/audit.go:458-466 | Append accepts both of two different requests that get the same hash |
| AuditSpec.EveryRunVerifies | internal/audit/audit.go:136-221 | Every interleaving of appends and prune steps leaves a non-empty log whose start and every row verify |
| AuditSpec.AcceptedExactlyWhen | internal/audit/audit.go:142-216 | What verification accepts, written out: every row names the hash before it and hashes its five texts with separators between, and a pruned start is on record under the retention kind |
| AuditSpec.ANewRowSays | internal/audit/audit.go:79-115 | A new row takes the next seq, reads back as what was asked for and when, and chains to the row before it |
| AuditSpec.TheReportedAnchorIsExact | internal/audit/retention.go:142-158 | In every run the report names exactly the last removed row at every point if and only if no append misleads at its own point; when only retention writes readable anchors, the anchor reported is the only one that accounts for the start |
| AuditSpec.ReportedAfter | internal/audit/retention.go:142-158 | What is reported after any event: the new last removed row after a removal, whatever was reported before; what an accounting append claims; otherwise what it was |
| AuditSpec.StepStaysExactExactlyWhen | internal/audit/retention.go:142-158 | From an exact report an event keeps it exact exactly when it is not an append that names the last removed hash and claims less |
| AuditSpec.AForgedAnchorIsReported | internal/audit/retention.go:142-158 | A row a caller appends under the retention kind with the last removed hash is accepted and reported, with whatever seq it claims |
| AuditSpec.HashesDiffer | internal/audit/audit.go:79-115 | No two rows of a chain share a hash |
| AuditSpec.EqualEndsMeanEqualRows | internal/audit/audit.go:180-216 | Two verified logs of equal length ending in one hash agree row by row, given separator-free fields in one of them |
| AuditSpec.WrittenLogsAreBound | internal/audit/audit.go:79-115 | The end hash of any log written from appends without the separator, pruned or not, binds it row by row |
| AuditSpec.OldRun | internal/audit/retention.go:93-123 | The length of the maximal oldest run before the cutoff, within the step |
| AuditSpec.FindAnchor | internal/audit/retention.go:142-158 | The latest row that accounts for the start, if any does |
| Auditor.Auditor.AppendTx | internal/audit/audit.go:79-115 | Inserts one row that says what was asked for and when and chains to the one before, or refuses, exactly for a blank actor or kind or an unserialisable payload, without inserting; the log stays valid |
| Auditor.Auditor.ReadPrunablePrefix | internal/audit/retention.go:93-123 | The loop finds the longest oldest run of rows strictly before the cutoff, within the step and the last seq, and the anchor accounting for it |
| Auditor.Auditor.PruneStep | internal/audit/retention.go:66-91 | One transaction puts in place of exactly those rows one retention entry that names the last of them, their number and the cutoff |
| Auditor.Auditor.PruneBefore | internal/audit/retention.go:37-64 | Terminates; with appends in between, every row removed is strictly before the cutoff and was present at the start, and when it finishes the next such row is not before it; an interrupted or failed pass removes an initial part; counts what it removes, keeps its own anchors and never empties the log |
| Auditor.Auditor.Verify | internal/audit/audit.go:136-221 | On any table, accepts exactly a sound start and sound rows, otherwise names the first bad row and why, reports an unaccounted start exactly when no row records it, and reports the anchor and the seq it claims |
| Auditor.Auditor.AValidLogVerifies | internal/audit/audit.go:136-221 | Whatever appends and passes an auditor went through, its table verifies |
| BudgetCalls.RetryAtIsExact | internal/llm/budget.go:228-240 | Without further admissions the call limit blocks at every time before RetryAt, naming the same time, and not at it, however many calls are live and in whatever order |
| BudgetCalls.DenialLastsExactlyUntilRetry | internal/llm/budget.go:219-255 | So a request is denied by the call limit exactly until then |
| BudgetCalls.NoHourHasTooManyCalls | internal/llm/budget.go:219-255 | Over every run with a clock that never goes back, every half-open hour holds at most calls_per_hour admissions, though expired ones are forgotten |
| BudgetRuns.PerformFromNothing | internal/llm/budget.go:65-84 | Any reservations and settlements on the object, from an empty store and whichever writes fail: while the clock does not go back no half-open hour holds more granted requests than the limit, and for honest requests the stored charge covers all true use within the ceiling |
| BudgetRuns.Perform | internal/llm/budget.go:65-84 | From any balanced document the store ends with the ledger of the run on tokens and of the run on calls, and the requests granted are the admissions of that run |
| BudgetRuns.TheRetryTimeIsTheFirst | internal/llm/budget.go:228-252 | A refusal names a time exactly when the last hour holds the limit, and it is the first time at which it holds fewer; counter overflow is reported exactly when every limit would allow the request |
| BudgetTokens.TokensAreConserved | internal/llm/budget.go:130-149 | While nothing saturates, charged tokens are settled use, pending reservations and charges kept for unknown outcomes; never below the pending sum, never past 64 bits |
| BudgetTokens.HonestRunsStayWithinCeiling | internal/llm/budget.go:241-253 | If true use is within each allowance, neither the charge nor the true total ever exceeds total_tokens, through crashes and failed settlements |
| BudgetTokens.EveryRunBalances | internal/llm/budget.go:37-47 | Both, for every run from an empty ledger |
| BudgetTokens.OnlyUnclearAnswersBlock | internal/llm/budget.go:175-217 | Settling charges what the answer reports, refunds a declined request (4xx, 503, 529), and blocks a finite token budget, naming reason and time, exactly when the request may have been billed unreadably or the counter saturates |
| BudgetTokens.UnknownUseBlocksForGood | internal/llm/budget.go:210-227 | Once use is unknown a finite token budget admits nothing in any further run and keeps the first reason and time |
| BudgetSpec.Allowance | internal/llm/budget.go:257-283 | Refuses exactly a non-positive cap or a sum past 64 bits; otherwise charges the cap beyond length and framing |
| Budget.BudgetStore.Write | internal/store/llm_budget.go:14-40 | The new document replaces the old one or the old one stays |
| Budget.Budget.KeepLive | internal/llm/budget.go:228-235 | The in-place filter keeps the calls of the last hour in order |
| Budget.Budget.Reserve | internal/llm/budget.go:219-255 | Judged on the stored ledger: granted exactly when every limit that is set allows it and 64 bits hold it, refused on any other written document; a charge is committed whole or not at all |
| Budget.Budget.Settle | internal/llm/budget.go:128-149 | On the stored ledger, the reservation is replaced by the use, saturating, or the charge stays and use is unknown; nothing changes when the write fails or the document is unsound |
| Budget.ResponseTokens | internal/llm/budget.go:285-328 | The loop yields the sum of one family of counts exactly when each is usable and the sum fits and is not zero, and an overflow exactly when the first trouble is a number or sum that does not fit |
| Budget.FamiliesAreCounted | internal/llm/budget.go:293-300 | The counts that are summed and required: prompt and completion if the former is there, otherwise input and output with the two optional cache counts |
| RestoreSpec.StagedRestoreSurvivesCrashes | internal/backup/restore.go:103-149 | However many starts are cut short anywhere, the original with its log merged in stays whole in database or safety copy, and one whole start installs the staged file, leaves exactly that original as the safety copy and consumes the staging file |
| RestoreSpec.InadmissibleChangesNothing | internal/backup/restore.go:230-262 | An inadmissible staged file is set aside once and no other file changes, whatever crashes |
| RestoreSpec.OfflineRestoreSurvivesInterruption | internal/backup/restore.go:174-213 | Interrupted offline restores keep the original with its log merged in, and a whole one then installs the backup, leaves that original as the safety copy and the backup in place |
| RestoreSpec.AWholeSwapRestores | internal/backup/restore.go:103-149 | A whole swap puts the source in place and the former database, its log merged in, into the safety copy, or keeps the older copy where there was no database |
| RestoreSpec.OfflineRerunKeepsSafetyExactlyWhen | internal/backup/restore.go:116-128 | An offline restore keeps the safety copy exactly when no database is in its place or it holds the same content |
| RestoreSpec.OfflineTwiceLosesTheOriginal | internal/backup/restore.go:96-101 | Restoring one backup twice offline overwrites the original |
| Restore.Directory.FoldAndProveExclusive | internal/backup/restore.go:151-172 | Leaves the database with its log merged in, no sidecars and every other file alone, or fails without effect |
| Restore.Directory.Swap | internal/backup/restore.go:103-149 | Performs the specified operations in order, as many as the process lives for |
| Restore.Directory.Install | internal/backup/restore.go:174-213 | Staged by rename, offline by copy and rename |
| Restore.Directory.RestoreOffline | internal/backup/restore.go:99-101 | Refuses a missing or inadmissible backup before touching anything; a completed run is all a restore owes |
| Restore.Directory.ApplyStaged | internal/backup/restore.go:230-262 | What one start does about the staging path, cut short or not; a completed one is all a restore owes |
| GroupKeys.PrintingIgnoresOrder | cmd/alertint/drill_scenario.go:337-344 | The key does not depend on the order the map is ranged over |
| GroupKeys.RoundTripExactlyWhenCanonical | cmd/alertint/drill_rerun.go:105-114 | Parsing a printed key gives the labels back exactly when keys are trimmed and hold no comma or "=" and values no comma |
| GroupKeys.IncidentRoundTripExactlyWhenCanonical | cmd/alertint/drill_rerun.go:105-114 | The same of the keys the correlator prints |
| GroupKeys.SelectedIsIncidentKey | internal/grouping/identity.go:20-50 | Selecting distinct labels from an alert renders the key of those labels alone |
| GroupKeys.RenderersAgreeExactlyWhen | internal/grouping/identity.go:20-50 | For canonical selected labels, whatever else the alert carries, the drill's key and the correlator's agree exactly when no selected key goes on from another with a character below "=" |
| GroupKeys.RenderersAgreeWithoutPrefixes | internal/grouping/identity.go:20-50 | They agree for any labels whose selected keys do not begin one another |
| GroupKeys.RenderersDisagree | cmd/alertint/drill_scenario.go:335-344 | They differ for every alert grouped by host and host2 |
| GroupKeys.DrillGroupKey | cmd/alertint/drill_scenario.go:335-344 | The loop over the map, in any order, prints that key |
| GroupKeys.DrillKeyPartByPart | cmd/alertint/drill_scenario.go:337-344 | The drill's key has one part for every label, the parts ascending |
| GroupKeys.RenderLabels | internal/grouping/identity.go:11-18 | The loop renders all labels as the correlator's key, and as the drill's exactly without an inversion |
| GroupKeys.RenderSelectedLabels | internal/grouping/identity.go:20-29 | The loop renders the selected labels the alert has |
| GroupKeys.SelectedPartByPart | internal/grouping/identity.go:20-29 | The selected key is the selected labels that the alert has and no other, ascending, each with its value |
| GroupKeys.NothingSelectedIsEmpty | internal/grouping/identity.go:20-29 | An alert with none of the selected labels has an empty key |
| GroupKeys.IncidentKeyPartByPart | internal/grouping/identity.go:11-18 | The key of all labels names each label once, ascending, with its value |
| GroupKeys.RenderKeys | internal/grouping/identity.go:43-50 | The loop renders keys in order |
| GroupKeys.ParseGroupKey | cmd/alertint/drill_rerun.go:105-114 | The loop fills the map part by part, later parts overwriting |
| GroupKeys.ParsedPartByPart | cmd/alertint/drill_rerun.go:105-114 | A label is parsed exactly if some part has it before its first "=", trimmed, and its value is the rest of the last such part |
| Drill.AdaptLabels | cmd/alertint/drill_scenario.go:230-252 | The adapted labels are the canned values, salted on entry 0 exactly if it names a label no later entry repeats |
| Drill.AdaptedEntryByEntry | cmd/alertint/drill_scenario.go:230-252 | The adapted labels entry by entry, with the fictional values and the receiver's own four labels written out |
| Drill.Adapt | cmd/alertint/drill_scenario.go:237-252 | The same of the loop, for any table of canned values |
| Drill.FirstGroupLabel | cmd/alertint/drill_rerun.go:74-81 | The loop returns the first label named |
| Drill.NonSaltedLabelsMatch | cmd/alertint/drill_rerun.go:83-94 | The loop accepts exactly labels with every other named label canned |
| Drill.ReusableSalt | cmd/alertint/drill_rerun.go:46-63 | The checks of one candidate yield its salt exactly when it matches |
| Drill.ASaltIsReusedExactlyWhen | cmd/alertint/drill_rerun.go:46-63 | A salt is reused exactly from an analyzed or resolved drill within the window whose key gives every label its fictional value and goes on, at the first one, with the scenario and that salt |
| Drill.DrillRerunSalt | cmd/alertint/drill_rerun.go:21-72 | The loop answers with the latest matching candidate, the first among equals, always a judged drill within the window, or with nothing exactly when nothing can match |
| Drill.OwnLabelsMatchExactlyWhen | cmd/alertint/drill_scenario.go:217-252 | A drill's own labels match a later run exactly when the salt survived and both runs' salted endings are the same text |
| Drill.ValidatedKeepsTheSalt | internal/config/config.go:1246-1265 | Every list that validation lets through, the empty one included, keeps the salt on its first label |
| Drill.AlertsAreFiledUnderAdapted | internal/correlator/correlator.go:529-536 | The correlator files a drill's alert, whatever else it carries, under the key of the adapted labels |
| Drill.ScenariosMixExactlyWhen | cmd/alertint/drill_rerun.go:27-30 | Two scenario keys can be mistaken exactly when one followed by "-" begins the other's |
| Drill.BuiltInsStayApart | cmd/alertint/drill_scenario.go:70-161 | The built-in scenarios never are |
| Drill.RerunReusesTheLatestOwnSalt | cmd/alertint/drill_rerun.go:21-72 | For every validated grouping, among incidents the correlator opened for drills the answer is the latest eligible one of the same scenario, exists exactly when there is one and no label holds a comma or "=", and its salt reproduces that incident's key |
| Drill.AMatchCollapsesExactlyWhen | cmd/alertint/drill_rerun.go:21-33 | For any key that matches, the rerun lands on its incident exactly when the key is the correlator's printing of its labels and those are the labels grouped by now |
| Drill.DroppingALabelMissesTheDrill | cmd/alertint/drill_rerun.go:83-94 | After a label is dropped from the grouping, an older drill still matches but the rerun gets a key of its own |
| Drill.EffectiveIsPlain | internal/config/config.go:1246-1265 | For validated labels, keys parse back exactly when no configured label holds a comma or "=" |

## Left out

- Error classification: each observation comes with its reason code; `internal/llmhealth/reason.go` contributes the classes only, and detail texts are not modelled.
- The rows the tracker itself appends to the audit log, its log lines, its snapshot and its kick channel: a turn of the loop may come at any time.
- Wall-clock timeouts and the drain arithmetic of the runner: a call ends with one of the possible results, a pass attempts some prefix of the queue. A cancellation between the marker and the POST is the result `Refused`, and one before the pass a context that is done.
- The hard abort of the loop, which skips the last pass: `Runner.Step` leaves the objects in a reachable state at every turn, so it is a run that simply ends.
- A nil publisher, prober, auditor or store, and the locks themselves: each method runs under its lock, and the points where the program lets go of it are where other events may come.
- The text of Slack messages; only the state and duration they report are kept.
- 64-bit wrap-around of generations, counters and durations outside the budget ledger.
- SHA-256, JSON and SQLite: functions and transactions with the properties named above. Payload canonicalisation is a function that may fail.
- Usage statistics and event catalogues in `internal/audit/audit.go`.
- Rows with unreadable times: the pruning pass stops at one; the model's log never holds one. A store error is a pass that fails at that step.
- Budget.ResponseTokens: takes the decoded usage object; that a body is not JSON, or longer than 512 KiB, is the answer `NotReported`.
- The status number inside the reason text of an unreadable answer, and how RoundTrip wraps errors for its caller.
- What makes a backup admissible: a predicate on its content. Directory syncs and power loss, and removal of the temporary file after an error, are not modelled.
- The reserved label prefix that configuration validation also refuses: no result needs it.
- LimiterSpec.ProfilesAreServed: counts only slots that a profile could take; assessments that keep arriving may hold profiles back for ever.
- The alerts, fingerprints, change event and annotations of a materialized drill; only its labels and group key are modelled. The fallback identity of `internal/grouping/identity.go` is a single conditional.
- Strings are sequences of characters ordered by code point, as their encodings are; invalid encodings are not modelled.
- The correlator, the Situation controller, ingress, configuration and presentation.
