# Verified model of the Atta engine core

A Dafny model of the concurrent flow engine and of the small stateful components around it, with proofs of what
they promise. `dafny verify dfyconfig.toml` checks the whole project.

## What is modelled

**The flow engine** (`Flow*.dfy`). A task is driven through a user-supplied graph by any number of workers at once,
with optimistic locking, cascading transitions, gates, retries, forks and joins.

* `Flow` holds the definitions and `validate_flow_def`.
* `FlowEngine` is the machine: each awaited operation of `advance_by_id` or `force_transition` is one step of a
  worker, and between two steps other workers, agents merging data, approvers, branch tasks and administrators may
  act. `Run` folds a list of such actions over the system; theorems quantify over all lists.
* `FlowSafety` is the invariant and its preservation step by step. `FlowTheorems`, `FlowHistory`, `FlowCascade`,
  `FlowChoice`, `FlowFork`, `FlowJoin`, `FlowSpawn`, `FlowSweep`, `FlowRetry` and `FlowApproval` are the results over all
  runs, and what single steps mean; `FlowDepth`, `FlowFailFast`, `FlowForkRuns` and `FlowFailFastSweep` are complete
  concrete runs.
* `FlowRuntime` is the engine as the program it is, a class whose methods loop, return early and update the store in
  place. Its invariant says that what happened so far is a run of the machine, whatever the schedule of the others.

**The condition language** (`Condition.dfy` over `Text.dfy`): the string-splitting parser and the evaluator.
`ConditionMeaning` says what every condition means by its text and the facts alone; `TextLaws` does so for words, white
space and lengths.

**The command splitter** (`Classifier.dfy`, `ClassifierLaws.dfy`, `ShellCheck.dfy`): the quote-aware scanner as a
loop and as an automaton, its laws, and the shell-command check on top.

**Windows and buffers**, each proved equal to a form that keeps the whole history: the rate tracker and the guard's
limits (`Tracker.dfy`), the loop detector (`LoopDetector.dfy`), the debouncer (`Debounce.dfy`), the streaming
collector (`Streaming.dfy`), the embedding cache (`EmbeddingCache.dfy`), MMR reranking (`Mmr.dfy`), JSON merging
(`JsonValues.dfy`) and context truncation (`Context.dfy`).

## What the proofs found

* Fail-fast (`crates/core/src/flow_engine.rs:625` says the parent is marked failed). The join merges the error and
  then moves the task with the snapshot from before the merge. The parent is failed exactly when there is an automatic
  transition, it leads to an End state, and an error had been there before (`FailFastStatus`, `FailFastCommitted`,
  `FailFastBlocked`); `FailFastParentCompletes` is a run in which it is completed instead.
* Spawned and recorded branches can differ, and the parent can then be completed while a spawned branch is still
  running. There are two causes. Recording has no version check, so of two workers that read the fork before anything
  is recorded the second replaces the first one's record (`SpawnedBranchIsLost`, `SecondSpawnerBreaks`). And a worker
  that creates a branch but cannot publish it returns before recording, so the next advance spawns anew
  (`FailedPublishLosesBranch`). Record and branches agree (`RecordIsSpawned`), and the join waits for all of them
  (`JoinsEverySpawned`), when every worker that begins to spawn finds nobody else spawning and no branch; from any
  other start a branch can be lost (`UncleanStartBreaks`).
* A second Parallel state joins on the branches of the first instead of spawning its own (`SpawnedOnce`,
  `SecondForkSpawnsNothing`).
* The timeout sweep writes without looking again. It leaves alone exactly what its own scan saw finished
  (`SweepExactly`): a branch that completes after that read is failed all the same (`CompletedBranchOverwritten`), and
  under fail-fast so is one that had completed long before but stands behind the failed branch at which the scan
  stopped (`CompletedBranchNeverRead`).
* The retry policy saves a flow state read earlier. After a commit whose event could not be published, or in a worker
  that lost the race for a commit, it puts the flow state back while the task stays moved (`FlowStateFallsBehind`). So
  path claims are about the log of commits; the history kept in the flow state agrees with it when nothing can be
  retried (`FlowStateFollows`), and otherwise exactly when no saved retry overwrote a commit made since its read
  (`FollowsExactly`, `EverySaveExactly`).
* Approvals do not reach the conditions. Both stores read every flow state back without a pending approval
  (`crates/store/src/sqlite.rs:488`, `crates/store/src/postgres.rs:635`), so `approved`, `denied`, `needs_changes` and
  `timeout` are false there, and a Gate that needs one of them is left only by force or by the fallback after a lost
  commit (`GateLeftByForce`, `GateHolds`).
* A join does not clear what an earlier one left under `_parallel_results` on PostgreSQL (`StoredResults`).
* The cascade limit also refuses a 101-state chain that has already reached its End state (`DepthLimitTight`).
* The error policy's fallback can commit only after the store lost a commit although the version matched: a conflict
  means the version has moved on, and after a successful commit the fallback carries a stale one
  (`EveryStepJustified`). A cancelled task is moved on by the next commit, since cancelling leaves the version alone
  (`CancelledExactly`).
* `crates/core/src/condition.rs:64-66` says that NOT inside a quoted value is split. The code reads NOT only as a
  prefix; AND, OR and the comparison operators are what a value must not contain (`ComparisonExactly`).
* The stores differ: PostgreSQL merges task data deeply, SQLite replaces top-level entries (`BackendsAgree`).
* The default stream turns an empty call list into an empty message (`ChatStreamRoundTrip`).
* Debounce keys of different sources coincide: exactly the group-less messages without colons in channel and sender
  have a key of their own (`KeyIsOwnExactly`).
* Dangerous patterns that contain an operator character are only ever found where that character stands inside quotes
  or behind a backslash (`PatternOperatorsShielded`), and never in a command without either (`PlainSegments`).
* The rate limits rely on the window's length fitting in 32 bits (`WrapAdmits`).

## Model

| member | source | states |
|---|---|---|
| Flow.ValidateFlowDef | crates/core/src/flow_engine.rs:200-277 | reports a defect exactly when the definition is not well formed, and the reported defect is one it has |
| Flow.ValidateState | crates/core/src/flow_engine.rs:225-255 | the per-state checks: a Gate carries its gate and no automatic transition, every target exists; a defect is reported exactly when one of these fails |
| Flow.WellFormedExactly | crates/core/src/flow_engine.rs:200-277 | well-formedness is the same as the absence of every defect the validator can name |
| Flow.WellFormedMeans | crates/core/src/flow_engine.rs:200-277 | well formed means one Start state and no other, some End state, an approver and no automatic transition at every Gate, and only names of states that exist |
| FlowEngine.DecideFirst | crates/core/src/flow_engine.rs:395-442 | the scan takes the first listed transition that is automatic or true, and stays exactly when none fires |
| FlowEngine.RunAppend | crates/core/src/flow_engine.rs:354-456 | a run of one action list after another is the run of their concatenation |
| FlowSafety.StepKeeps | crates/core/src/flow_engine.rs:354-958 | every awaited operation of any worker keeps the invariant: the log is a justified path, its length is the version, snapshots are consistent, scans account for the branches they have seen |
| FlowSafety.ApplyKeeps | crates/core/src/flow_engine.rs:354-958 | agents, approvers, branches, administrators and new workers keep the invariant too |
| FlowSafety.RunKeeps | crates/core/src/flow_engine.rs:354-958 | the invariant holds along every run and nothing committed is ever taken back |
| FlowTheorems.Reachable | crates/core/src/flow_engine.rs:286-333 | creating a task for a registered definition starts in the invariant, so every reachable system satisfies it |
| FlowTheorems.ReachGrows | crates/store/src/traits.rs:94-105 | what was committed stays committed in every longer run |
| FlowTheorems.CommittedPath | crates/store/src/traits.rs:94-105 | in every interleaving the commits form one unbroken path from the initial to the current state, as long as the version, with at most one commit among the workers that read the same version |
| FlowTheorems.EveryStepJustified | crates/core/src/flow_engine.rs:395-544 | every unforced step goes to the first transition that fired on what the worker read; a Gate is left only on a condition that was true, by force, or by the error policy's fallback after a commit the store lost |
| FlowChoice.ChoiceTurns | crates/core/src/flow_engine.rs:395-442 | after reading task and flow state a worker commits the first listed transition that fires on the data, the pending approval, the clock and the registered tools, ends well exactly when none fires, and otherwise with a condition error |
| FlowChoice.HighRiskDecides | crates/core/src/flow_engine.rs:395-442 | in every run a transition on has_high_risk_tools is committed only on data that plan a registered high-risk tool, and one listed after it only on data that plan none |
| FlowChoice.ChosenWhere | crates/core/src/flow_engine.rs:395-442 | a matched move carries the task, flow state and clock that were read, and its iteration |
| FlowChoice.ReadTurns | crates/core/src/flow_engine.rs:360-393 | after reading the task a worker ends with an error at an undefined state, ends well exactly at an End state or a fork without branches, spawns or checks at a fork, and reads the flow state elsewhere |
| FlowChoice.FailureTurns | crates/core/src/flow_engine.rs:462-519 | after a conflict only an ordinary move out of a listed state is retried, with one more retry counted, up to the allowed number; then the fallback is tried, an error if there is no such state |
| FlowChoice.EntryTurns | crates/core/src/flow_engine.rs:903-958 | entry actions run one by one: publishing and logging change nothing, setting a variable changes that key alone, and a failed publish or write stops them |
| FlowTheorems.NoStepOutOfEnd | crates/core/src/flow_engine.rs:377-379 | in every run a commit that leaves an End state was forced, fallbacks included |
| FlowTheorems.EndAbsorbing | crates/core/src/flow_engine.rs:377-379 | once an End state is reached, with no forced move in flight and none launched later, no worker, however stale, commits anything more |
| FlowTheorems.CancelledExactly | crates/core/src/flow_engine.rs:565-592 | a task is cancelled exactly when a cancellation came after the last commit; the next commit undoes it |
| FlowTheorems.StatusTracksState | crates/core/src/flow_engine.rs:565-592 | unless a cancellation stands, a task waits for approval exactly at Gates and is Completed or Failed exactly at End states |
| FlowHistory.EverythingSeen | crates/core/src/flow_engine.rs:356-442 | every commit was decided on a task, then a flow state or branch outcomes, that the store held in this order before the action that commits |
| FlowRetry.FlowStateFollows | crates/core/src/flow_engine.rs:462-519 | when the definition lets nothing be retried, in every interleaving the history in the flow state is the list of committed transitions and it names the task's current state |
| FlowRetry.FollowsExactly | crates/core/src/flow_engine.rs:482-504 | in every interleaving the flow state follows the commits exactly when no retry was saved, or nothing was committed between the read behind the last saved one and its saving, and so on back from that read |
| FlowRetry.EverySaveExactly | crates/core/src/flow_engine.rs:482-504 | for every moment at which the store held the flow state a worker now saves, as at its read: after the save the flow state follows the commits exactly when it did then and nothing was committed since |
| FlowRetry.SavedFrom | crates/core/src/flow_engine.rs:462-486 | there is such a moment: a flow state about to be saved is one the store once held, with one more retry counted |
| FlowRetry.FirstSaveExactly | crates/core/src/flow_engine.rs:482-504 | at the first saved retry the condition is that nothing was committed since the read |
| FlowRetry.PublishFailureReverts | crates/core/src/flow_engine.rs:462-510 | from every moment of every run at which a worker would take a transition whose failure is retried, a failed publish leads to a moved task under a flow state put back |
| FlowRetry.ConflictReverts | crates/core/src/flow_engine.rs:462-510 | from every such moment two workers lead there too, with every operation succeeding: the one that meets the conflict saves over the other's history entry |
| FlowRetry.FlowStateFallsBehind | crates/core/src/flow_engine.rs:462-510 | two complete runs of one flow, one per cause, that end with the task at its End state and the flow state still at the start |
| FlowApproval.GateLeftByForce | crates/store/src/sqlite.rs:470-495 | in runs without approvals in the flow state, which are all that the shipped stores give, a Gate whose conditions need one is left only by force or by the lost-commit fallback |
| FlowApproval.GateHolds | crates/store/src/sqlite.rs:470-495 | so under a reliable store a task at such a Gate stays there as long as nobody forces it |
| FlowApproval.AsksNeeds | crates/core/src/condition.rs:169-200 | a condition needs an approval when every way to make its parse true goes through approved, denied, needs_changes or timeout |
| FlowCascade.RunLengthBound | crates/core/src/flow_engine.rs:354-456 | when no sequence of steps the engine can take unforced returns to its start, a task takes fewer steps than there are states, in every unforced run |
| FlowCascade.NeverTooDeep | crates/core/src/flow_engine.rs:354-456 | in such a flow of at most 100 states no worker in any interleaving returns the cascade-depth error |
| FlowDepth.DepthLimitTight | crates/core/src/flow_engine.rs:354-456 | an acyclic chain of 101 states commits 100 transitions, completes in its End state and still returns the depth error |
| FlowJoin.ParallelLeftByJoin | crates/core/src/flow_engine.rs:729-895 | an unforced commit out of a Parallel state is a join; unless fail-fast is set every recorded branch was seen completed after the parent was read and before the commit, and the results hold exactly one entry, its output, per recorded branch |
| FlowJoin.ErrorStays | crates/core/src/flow_engine.rs:567-580 | an error key in the task data stays there in every longer run |
| FlowJoin.FinalStatus | crates/core/src/flow_engine.rs:565-581 | unless a cancellation stands, the End status and the text of a failure are decided by the snapshot of the worker that moved the task there |
| FlowJoin.ErrorDecides | crates/core/src/flow_engine.rs:565-581 | if the error was there when the finishing worker read the task, the task is Failed |
| FlowJoin.FailFastStatus | crates/core/src/flow_engine.rs:829-860 | a fail-fast join, wherever it leads, leaves an error in the data, and the parent Failed exactly when there is an automatic transition, it leads to an End state and an error had been there before the join |
| FlowJoin.FailFastCommitted | crates/core/src/flow_engine.rs:829-860 | in every run, whenever the last commit is a join and no cancellation stands, the task is Failed exactly under that condition |
| FlowJoin.FailFastBlocked | crates/core/src/flow_engine.rs:852-859 | in every run a fail-fast join without an automatic transition leaves state and status of the parent as they are |
| FlowJoin.StoredResults | crates/core/src/flow_engine.rs:842-884 | what the join leaves under _parallel_results: exactly the results on SQLite, and on PostgreSQL exactly them precisely when they overwrite what was there |
| FlowJoin.ResultEntries | crates/core/src/flow_engine.rs:742-757 | in those results a finished branch stands with its output, a failed one as an object holding its error |
| FlowFork.EveryBranchInput | crates/core/src/flow_engine.rs:651-679 | in every run every branch was spawned by some action on the input its definition asks for out of an earlier state of the parent: all data without a mapping, else exactly the mapped keys whose source is there, with their values |
| FlowFork.RecordTells | crates/core/src/flow_engine.rs:711-726 | either store reads back from the record the ids, the strategy by its name (all unless fail-fast is set) and the time of spawning, whatever was there |
| FlowFork.RecordedExactly | crates/core/src/flow_engine.rs:640-645 | the recorded ids are the texts of a well-formed list, and none when anything else is there |
| FlowFork.ScanReads | crates/core/src/flow_engine.rs:734-765 | a completed branch counts with its output, a failed one with its error, any other as unfinished; a failed one ends the scan exactly under fail-fast |
| FlowFork.SweepBegins | crates/core/src/flow_engine.rs:767-783 | after the scan the sweep begins exactly when a branch was unfinished, there is a timeout, and the clock is at least the timeout past the recorded spawning |
| FlowFork.SweepsInTime | crates/core/src/flow_engine.rs:767-783 | so on a parent as just recorded at a time, it begins exactly from that time plus the timeout on |
| FlowFork.SweepNotes | crates/core/src/flow_engine.rs:785-826 | a branch given up stands in the results as failed with the timeout; a bad identifier or a missing branch stops the sweep |
| FlowFork.JoinTurns | crates/core/src/flow_engine.rs:829-895 | at the end any failure joins as failed exactly under fail-fast; otherwise the join waits until everything is finished and nothing failed |
| FlowFork.JoinChecks | crates/core/src/flow_engine.rs:832-845 | the results are merged only if the task is still at the version that was read; otherwise the check ends well without touching anything |
| FlowFailFast.FailFastParentCompletes | crates/core/src/flow_engine.rs:829-860 | a complete reachable run in which the only branch fails, the parent joins fail-fast, and the parent ends Completed |
| FlowSpawn.RecordReads | crates/core/src/flow_engine.rs:636-645 | the fork record written after spawning reads back as the same branch ids, under either store |
| FlowSpawn.SpawnedAtReads | crates/core/src/flow_engine.rs:711-726 | the recorded time of spawning reads back, whatever it is |
| FlowSpawn.RecordStays | crates/core/src/flow_engine.rs:711-726 | as long as nobody else writes the fork record, it is never emptied once written; a second spawner may replace it |
| FlowSpawn.SpawnedOnce | crates/core/src/flow_engine.rs:636-645 | a worker that reads the task after branches were recorded does not spawn, in this or any later Parallel state; one that had read it before goes on |
| FlowSpawn.RecordIsSpawned | crates/core/src/flow_engine.rs:636-726 | when every worker that begins to spawn finds nobody else spawning and no branch, and nobody else writes the record, a record names exactly the branches ever spawned, each once, and stays the same for the rest of the run |
| FlowSpawn.JoinsEverySpawned | crates/core/src/flow_engine.rs:729-895 | so under All, with clean starts, the parent leaves a Parallel state unforced only when every branch ever spawned had been seen completed, with exactly one result per spawned branch |
| FlowSpawn.SecondSpawnerBreaks | crates/core/src/flow_engine.rs:647-727 | whenever two workers are spawning at once the run can go on, every operation succeeding, so that the second record replaces the first and a spawned branch is no longer recorded |
| FlowSpawn.UncleanStartBreaks | crates/core/src/flow_engine.rs:636-727 | the converse of clean starts: from any start at which somebody else is spawning or a branch exists, the run can go on, every operation succeeding, to a record that misses a spawned branch |
| FlowForkRuns.SpawnedBranchIsLost | crates/core/src/coordinator.rs:71-91 | a complete run under All, every operation succeeding, in which two workers spawn and the parent is completed while a spawned branch is still running |
| FlowForkRuns.FailedPublishLosesBranch | crates/core/src/flow_engine.rs:687-711 | a complete run of one worker alone: it creates a branch, fails to publish it, spawns another on the next advance and completes the parent while the first is still running |
| FlowForkRuns.SecondForkSpawnsNothing | crates/core/src/flow_engine.rs:636-647 | a complete run through two Parallel states, each with a branch to spawn, in which only one branch is ever spawned |
| FlowSweep.EveryoneKnows | crates/core/src/flow_engine.rs:734-765 | in every interleaving, under both strategies, a worker that checks branches holds a result for each one it read as concluded and, among distinct branches, for no other |
| FlowSweep.SweepExactly | crates/core/src/flow_engine.rs:767-827 | in every interleaving, under both strategies, a sweep touches only the branch it is at; among distinct branches, and when the write is carried out, that branch is failed exactly when this worker did not read it as concluded; under All it did read it |
| FlowSweep.SawExactly | crates/core/src/flow_engine.rs:734-765 | a branch is read once in a check, and the worker saw it concluded exactly if it was at that moment |
| FlowFailFastSweep.UnreadIsOverwritten | crates/core/src/flow_engine.rs:749-827 | from any moment at which a fail-fast fork is timed out and a running, a failed and a completed branch are recorded in this order, a worker acting alone fails the completed one without having read it |
| FlowFailFastSweep.CompletedBranchNeverRead | crates/core/src/flow_engine.rs:749-827 | a complete run to such a moment and on, in which a branch that had completed before the check began is failed by it |
| FlowForkRuns.CompletedBranchOverwritten | crates/core/src/flow_engine.rs:767-827 | a complete run in which a branch completes between scan and sweep and is failed all the same |
| FlowRuntime.Engine.constructor | crates/core/src/flow_engine.rs:286-333 | a new task is in the initial state at version 0 with nothing recorded |
| FlowRuntime.Engine.AdvanceById | crates/core/src/flow_engine.rs:354-456 | the loop with its early returns is a run of the machine and ends with the outcome it returns |
| FlowRuntime.Engine.ScanTransitions | crates/core/src/flow_engine.rs:395-442 | the transition loop returns the decision of the machine |
| FlowRuntime.Engine.AdvanceTask | crates/store/src/traits.rs:94-105 | on the store as it is at that moment: a conflict exactly on another version; on success task, flow state, log and version have moved together; otherwise nothing has changed |
| FlowRuntime.Engine.Transition | crates/core/src/flow_engine.rs:553-616 | when nobody else acts from the call on: the store is unchanged if the commit failed, else the committed one with the first entry actions on top, all of them on success |
| FlowRuntime.Engine.ExecuteOnEnter | crates/core/src/flow_engine.rs:903-958 | when nobody else acts from the call on: the effect of the listed actions in order, up to the first failure, all of them on success |
| FlowRuntime.Engine.HandleErrorPolicy | crates/core/src/flow_engine.rs:462-519 | declines exactly for states that are not listed; when nobody else acts from the call on: with retries left only the retry count is saved, otherwise the task is at the fallback state |
| FlowRuntime.Engine.ForceTransition | crates/core/src/flow_engine.rs:525-544 | a forced move is a run of the machine that ends with the outcome returned |
| FlowRuntime.Engine.HandleParallelState | crates/core/src/flow_engine.rs:626-895 | fork, scan, sweep and join with their loops and early returns are a run of the machine that ends with the outcome returned |
| FlowRuntime.Engine.SpawnBranches | crates/core/src/flow_engine.rs:647-727 | on success the record names one branch per definition; when nobody else acts from the call on these are new, distinct, running on their own inputs, and the only new ones |
| FlowRuntime.Engine.CheckBranches | crates/core/src/flow_engine.rs:729-895 | when nobody else acts from the call on: if all recorded branches have completed and every operation succeeds, the join of their outputs is the whole new store; under All, if one has not, the task and the commits are as before; the branches are as before, or exactly the unfinished recorded ones have been failed and the parent has not moved |
| FlowRuntime.JoinMoves | crates/core/src/flow_engine.rs:852-890 | that join takes the first automatic transition in one commit, with the status of its target, and none if there is none |
| FlowRuntime.Engine.SweepBranches | crates/core/src/flow_engine.rs:767-827 | when nobody else acts from the call on: exactly the recorded branches without a result have been failed |
| FlowRuntime.Engine.DepthSafe | crates/core/src/flow_engine.rs:354-456 | what is proved of runs holds of the loop: in an acyclic flow of at most 100 states it does not report the cascade depth |
| Condition.Parse | crates/core/src/condition.rs:67-115 | parsing terminates on every text and fails exactly when the trimmed condition is empty |
| Condition.Evaluate | crates/core/src/condition.rs:49-58 | evaluation fails exactly on blank conditions |
| Condition.RoundTrip | crates/core/src/condition.rs:67-115 | printing a canonical condition and parsing it gives the same tree, so every first-occurrence split cuts at the intended operator |
| Condition.TextMeaning | crates/core/src/condition.rs:118-158 | text of disjuncts, conjuncts and negated atoms is true exactly when some disjunct has the texts of all its literals true |
| ConditionMeaning.WordMeans | crates/core/src/condition.rs:231-240 | a word that is no built-in name is true exactly when the data hold true under it |
| ConditionMeaning.AnswerMeans | crates/core/src/condition.rs:170-190 | approved, denied and needs_changes are true exactly when an approval is pending and has that answer |
| ConditionMeaning.TimeoutMeans | crates/core/src/condition.rs:191-198 | timeout is true exactly when an approval is pending and the clock is past its time |
| ConditionMeaning.HighRiskMeans | crates/core/src/condition.rs:199-216 | has_high_risk_tools is true exactly when a text among the planned tools names a tool registered with high risk |
| ConditionMeaning.AllToolsDoneMeans | crates/core/src/condition.rs:217-223 | all_tools_done is true exactly when there is no list of pending tools or an empty one |
| ConditionMeaning.AllDoneMeans | crates/core/src/condition.rs:224-228 | all_done is true exactly when the agent status is the text completed |
| ConditionMeaning.ComparisonMeans | crates/core/src/condition.rs:127-142 | a comparison with a quoted value is true exactly when the data hold that text under the key, or the value is empty and there is no text; != is its negation |
| ConditionMeaning.OuterSpace | crates/core/src/condition.rs:67-74 | white space around a condition changes nothing |
| ConditionMeaning.OrMeans | crates/core/src/condition.rs:76-82 | any text is cut at its first OR, and is true exactly when one of the two parts is |
| ConditionMeaning.AndMeans | crates/core/src/condition.rs:84-90 | without an OR it is cut at its first AND, and is true exactly when both parts are |
| ConditionMeaning.NotMeans | crates/core/src/condition.rs:92-95 | without either, a leading NOT negates the rest |
| ConditionMeaning.NeMeans | crates/core/src/condition.rs:97-103 | then it is cut at the first !=, the key trimmed, the value trimmed and stripped of the quotes at its ends |
| ConditionMeaning.EqMeans | crates/core/src/condition.rs:105-111 | then at the first == likewise |
| ConditionMeaning.NameMeans | crates/core/src/condition.rs:113-114 | anything else is one name, looked up with the spaces inside it |
| Condition.ComparisonExactly | crates/core/src/condition.rs:98-111 | a comparison survives printing and parsing exactly when its value has no quote at an end and no operator between spaces; NOT inside a value is harmless |
| Classifier.SplitUnquotedSegments | crates/security/src/classifier.rs:148-214 | the index loop with its quote flags computes the segments of the token automaton |
| ClassifierLaws.LexAppend | crates/security/src/classifier.rs:157-206 | scanning is a homomorphism: the second text is scanned in the mode the first ends in |
| ClassifierLaws.JoinedSegments | crates/security/src/classifier.rs:148-214 | the segments of two commands joined by any of the five operators are the first's followed by the second's, when the first ends outside quotes with nothing left to escape, even where the operator runs into its neighbours |
| ClassifierLaws.OperatorLaw | crates/security/src/classifier.rs:148-214 | for each of the five operators and any two commands that holds exactly when the first command ends cleanly |
| ClassifierLaws.NothingLost | crates/security/src/classifier.rs:148-214 | raw segments and the operators between them concatenate back to the command |
| ClassifierLaws.RawWhole | crates/security/src/classifier.rs:157-206 | no raw segment has an operator outside quotes |
| ClassifierLaws.SegmentsAreStable | crates/security/src/classifier.rs:148-214 | splitting a segment again gives just that segment |
| ClassifierLaws.OperatorsAreShielded | crates/security/src/classifier.rs:157-206 | every operator character left in a segment stands inside quotes or behind a backslash |
| ShellCheck.ValidateSingleSegment | crates/security/src/classifier.rs:73-142 | a segment is accepted exactly when it is empty, or holds no dangerous pattern in lower case, names a permitted command and holds no forbidden path; the error says which of the three failed first and on the first listed pattern or path |
| ShellCheck.AllowedExactly | crates/security/src/classifier.rs:107-129 | when nothing else is wrong, a segment is accepted exactly when there is no allowlist, or the command name is an entry without a star, or begins with the stem of an entry with one |
| ShellCheck.CommandName | crates/security/src/classifier.rs:108 | the command name runs from the first character that is not white space to the next that is |
| ShellCheck.DangerousExactly | crates/security/src/classifier.rs:81-101 | a segment is refused as dangerous exactly when its lower-case form contains one of the ten patterns |
| ShellCheck.ValidateShellCommand | crates/security/src/classifier.rs:58-70 | accepts exactly when no segment is at fault and otherwise reports the fault of the first faulty one |
| ShellCheck.FirstFaultMeans | crates/security/src/classifier.rs:58-70 | no fault is reported exactly when no segment has one; otherwise the earliest faulty segment speaks |
| ShellCheck.JoinedVerdict | crates/security/src/classifier.rs:58-70 | a joined command is accepted exactly when both parts are, and the first part's fault is reported first |
| ShellCheck.SegmentwiseVerdict | crates/security/src/classifier.rs:58-70 | a command is accepted exactly when each of its segments is accepted as a command of its own |
| ShellCheck.PatternOperatorsShielded | crates/security/src/classifier.rs:82-101 | wherever a pattern occurs in a lower-cased segment, its operator characters stand inside quotes or behind a backslash |
| ShellCheck.PlainSegments | crates/security/src/classifier.rs:82-101 | in a command without quotes and backslashes no segment holds an operator character, so no pattern that holds one is ever reported |
| Tracker.ActionTracker.RecordCall | crates/security/src/tracker.rs:28-40 | the deque is exactly the recorded times of the closed window ending now; the count is its 32-bit length |
| Tracker.ActionTracker.RecordHighRiskCall | crates/security/src/tracker.rs:43-57 | the same for the high-risk deque, independently |
| Tracker.ActionTracker.CurrentCount | crates/security/src/tracker.rs:60-67 | counts without recording |
| Tracker.ActionTracker.CurrentHighRiskCount | crates/security/src/tracker.rs:70-80 | counts high-risk calls without recording |
| Tracker.Expire | crates/security/src/tracker.rs:33-36 | popping expired times off the front leaves the times not before the cutoff |
| Tracker.SecurityGuard.CheckTotal | crates/security/src/guard.rs:165-172 | recorded first, then compared; refused calls count too |
| Tracker.SecurityGuard.CheckHighRisk | crates/security/src/guard.rs:174-183 | the high-risk step on its own deque |
| Tracker.SecurityGuard.CheckRates | crates/security/src/guard.rs:165-183 | the high-risk count is touched only by a high-risk call that got past the total limit |
| Tracker.AdmitsExactly | crates/security/src/guard.rs:165-183 | a call is let through exactly when the calls of the closed sixty seconds ending with it are at most the limit, counted in 32 bits |
| Tracker.WindowBound | crates/security/src/guard.rs:165-183 | in any closed window at most the limit of calls is let through, for any sorted log whose counts fit in 32 bits |
| Tracker.LimitsHold | crates/security/src/guard.rs:165-183 | over every run of the guard both limits hold in every closed sixty-second window, as long as the window counts fit in 32 bits |
| Tracker.WrapAdmits | crates/security/src/tracker.rs:38-39 | without that proviso the bound fails: the 2^32nd call of one instant is counted as none |
| LoopDetection.LoopDetector.Record | crates/agent/src/tool_executor.rs:462-513 | the 30-call window judges every call as a detector keeping the whole trace would |
| LoopDetection.RepeatExactly | crates/agent/src/tool_executor.rs:469-485 | a record is refused as a repeat exactly when the call was made more often than allowed, counted over the whole trace |
| LoopDetection.PingPongExactly | crates/agent/src/tool_executor.rs:492-510 | a record that is no repeat is answered as ping-pong exactly when the four newest kept calls are two different calls in turn |
| LoopDetection.FourEqualAreNone | crates/agent/src/tool_executor.rs:492-510 | four equal calls are no ping-pong |
| LoopDetection.KeptCounts | crates/agent/src/tool_executor.rs:469-491 | of every call exactly the first allowed number are kept in the history |
| LoopDetection.KeptWhole | crates/agent/src/tool_executor.rs:486-491 | a trace without refused repeats is kept as it is |
| LoopDetection.LoopDetector.RecordOutput | crates/agent/src/tool_executor.rs:517-527 | keeps the last ten outputs of the whole trace |
| LoopDetection.LoopDetector.CheckProgress | crates/agent/src/tool_executor.rs:531-543 | reports no progress exactly when the whole trace of outputs ends in five equal ones |
| LoopDetection.LoopDetector.Reset | crates/agent/src/tool_executor.rs:546-550 | forgets the trace |
| LoopDetection.SuffixStuck | crates/agent/src/tool_executor.rs:531-543 | a window of at least five ends in five equal outputs exactly when the trace does |
| LoopDetection.StuckExactly | crates/agent/src/tool_executor.rs:531-543 | no progress means five equal newest outputs |
| LoopDetection.AcceptedRunsAreShort | crates/agent/src/tool_executor.rs:462-513 | an all-Ok run over k distinct calls has at most k times max_repeats records |
| LoopDetection.RefusalLasts | crates/agent/src/tool_executor.rs:469-485 | a call refused as a repeat is refused ever after, until a reset |
| Debounce.SimpleDebouncer.Accept | crates/channel/src/debounce.rs:57-86 | the whole new buffer: a new batch, a grown batch, or a forced emission of exactly that batch |
| Debounce.SimpleDebouncer.FlushExpired | crates/channel/src/debounce.rs:90-109 | emits exactly the batches idle for the window, one message each, in any order |
| Debounce.SimpleDebouncer.FlushAll | crates/channel/src/debounce.rs:112-118 | emits everything, one message per batch, in any order |
| Debounce.HoldKeeps | crates/channel/src/debounce.rs:57-86 | holding a fragment keeps the conservation law: per key, emitted then pending is exactly what was accepted, in order, once each |
| Debounce.EmitKeeps | crates/channel/src/debounce.rs:90-118 | letting a batch go keeps the conservation law |
| Debounce.GrownGood | crates/channel/src/debounce.rs:61-72 | the character count stays right, and a batch of two or more fragments stays pending exactly when it is below the limit |
| Debounce.BatchesMean | crates/channel/src/debounce.rs:61-84 | a batch begins with its message, grows by each further fragment, and its last activity is the clock of the newest |
| Debounce.EmittedMessage | crates/channel/src/debounce.rs:130-138 | an emitted message holds the fragments of its batch one to a line, has a new identifier and time, and keeps every other field of the first message |
| Debounce.FragmentInside | crates/channel/src/debounce.rs:130-138 | every fragment stands in the emitted content, the first at its start and the others behind a line break |
| Debounce.ExpiredExactly | crates/channel/src/debounce.rs:90-100 | a batch has expired exactly when nothing was added for the window, or there is no window |
| Debounce.TotalLenAppend | crates/channel/src/debounce.rs:61-62 | the characters counted are the bytes of all fragments |
| Debounce.KeyTexts | crates/channel/src/debounce.rs:18-23 | a key reads channel, group if there is one, sender, with colons between |
| Debounce.JoinInjective | crates/channel/src/debounce.rs:130-138 | one-line fragments can be read back from the combined content |
| Debounce.KeyIsOwnExactly | crates/channel/src/debounce.rs:18-23 | the messages whose key no other source has are exactly the group-less ones without colons in channel and sender |
| Debounce.KeyIdentifies | crates/channel/src/debounce.rs:18-23 | among names without colons, two messages share a key exactly when they share channel, group and sender |
| Debounce.KeyCollides | crates/channel/src/debounce.rs:18-23 | every group message shares its key with a group-less message of another sender |
| Streaming.Collect | crates/agent/src/react.rs:349-396 | the collecting loop returns what the stream says: text concatenated, per index the last id, the last name and all arguments; an error before Done ends it |
| Streaming.ToolDeltaDecides | crates/agent/src/react.rs:388-396 | any tool delta makes the response a call list up to the largest index, and without one it is all the text |
| Streaming.CallMeans | crates/agent/src/react.rs:361-386 | each call has the last id and name given for its index and what its argument texts together parse to, the empty object if they do not parse |
| Streaming.InterleavingIrrelevant | crates/agent/src/react.rs:361-386 | any interleaving with the same text deltas and the same deltas per index collects to the same response |
| Streaming.SwapIrrelevant | crates/agent/src/react.rs:361-386 | swapping adjacent deltas of different indices, or text with a tool delta, changes nothing |
| Streaming.TextSplitIrrelevant | crates/agent/src/react.rs:362-364 | cutting a text delta in two changes nothing |
| Streaming.ArgumentSplitIrrelevant | crates/agent/src/react.rs:365-382 | cutting an argument delta in two changes nothing |
| Streaming.ChatStreamRoundTrip | crates/agent/src/llm.rs:161-187 | collecting the default stream of a response gives it back exactly when it is not an empty call list, which comes back as the empty message |
| EmbeddingCache.EmbeddingToBytes | crates/memory/src/embedding.rs:63-69 | the loop lays the floats out as little-endian groups of four |
| EmbeddingCache.StorageRoundTrip | crates/memory/src/embedding.rs:63-80 | stored embeddings read back bit for bit |
| EmbeddingCache.LittleEndian | crates/memory/src/embedding.rs:63-69 | each float is stored in its own four bytes, least significant first |
| EmbeddingCache.BytesRoundTrip | crates/memory/src/embedding.rs:72-80 | bytes survive reading and writing exactly when their number is a multiple of four |
| EmbeddingCache.DeleteOldest | crates/memory/src/embedding_cache.rs:99-117 | the given number of rows goes, none accessed later than any row kept |
| EmbeddingCache.CachedEmbeddingProvider.CacheGet | crates/memory/src/embedding_cache.rs:64-77 | touches and returns the row of a hash, nothing otherwise |
| EmbeddingCache.CachedEmbeddingProvider.CachePut | crates/memory/src/embedding_cache.rs:80-120 | afterwards at most max_entries rows, the upserted table without its least recently accessed rows |
| EmbeddingCache.UpsertExactly | crates/memory/src/embedding_cache.rs:84-97 | storing sets bytes and time of access of one row, keeps its time of creation, and changes no other row |
| EmbeddingCache.JustPutSurvives | crates/memory/src/embedding_cache.rs:80-120 | with room for one row and a clock past every other, the row just put survives the eviction |
| EmbeddingCache.CachedEmbeddingProvider.Embed | crates/memory/src/embedding_cache.rs:126-140 | the answer is the provider's, whatever the table held |
| EmbeddingCache.CachedEmbeddingProvider.LookUpAll | crates/memory/src/embedding_cache.rs:142-159 | hits are right, misses are listed, and the misses fail with the error the whole batch would fail with |
| EmbeddingCache.CachedEmbeddingProvider.StoreAll | crates/memory/src/embedding_cache.rs:161-168 | every open place is filled with the right embedding despite duplicates and evictions |
| EmbeddingCache.CachedEmbeddingProvider.EmbedBatch | crates/memory/src/embedding_cache.rs:142-171 | the batch answer is the uncached one at every index, never the default, errors included |
| EmbeddingCache.UpsertFaithful | crates/memory/src/embedding_cache.rs:80-120 | storing the right embedding and dropping rows keep every row of a known text right |
| Mmr.JaccardExactly | crates/memory/src/mmr.rs:108-119 | symmetric, between 0 and 1, 1 exactly for equal sets, 0 exactly for disjoint ones that are not both empty |
| Mmr.JaccardRatio | crates/memory/src/mmr.rs:108-119 | and in between it is the number of common tokens over the number of all |
| TextLaws.WordsExactly | crates/memory/src/mmr.rs:103-105 | splitting at white space gives exactly the stretches without white space between white space or ends |
| TextLaws.WhiteExactly | crates/memory/src/mmr.rs:103-105 | white space is the twenty-five Unicode characters |
| Mmr.MaxSimExactly | crates/memory/src/mmr.rs:74-78 | the largest similarity to the chosen results bounds and attains them, or is 0 |
| Mmr.RelevanceOrder | crates/memory/src/mmr.rs:37-51 | normalising keeps the order of scores |
| Mmr.MmrRerank | crates/memory/src/mmr.rs:32-100 | a permutation in greedy order: each item has the largest value among those not yet chosen, the first listed on ties |
| Mmr.PickFirst | crates/memory/src/mmr.rs:60-65 | the last of the highest scored results |
| Mmr.PickNext | crates/memory/src/mmr.rs:70-88 | the first remaining candidate with the largest value |
| Mmr.GreedyUnique | crates/memory/src/mmr.rs:60-93 | the greedy order is unique |
| Mmr.LaterPicks | crates/memory/src/mmr.rs:68-93 | every later pick gains, against any result still there, at least as much in lambda-weighted relevance as it loses in similarity to the picks before it, weighted by the rest; the first listed on ties |
| Mmr.LessSimilarFirst | crates/memory/src/mmr.rs:68-93 | with lambda below 1, of two results with equal scores the one less similar to the picks before comes first |
| Mmr.PureRelevance | crates/memory/src/mmr.rs:70-93 | with lambda 1 the output is sorted by non-increasing score |
| Mmr.FirstPickMaximal | crates/memory/src/mmr.rs:60-65 | the first pick maximises the same value exactly when lambda is not negative or all scores are equal |
| JsonValues.JsonMerge | crates/store/src/common.rs:39-50 | the loop that removes and re-inserts computes the key-by-key merge |
| JsonValues.MergeSelf | crates/store/src/common.rs:39-50 | merging a document into itself changes nothing |
| JsonValues.MergeIdempotent | crates/store/src/common.rs:39-50 | merging a patch twice is merging it once |
| JsonValues.MergesCommute | crates/store/src/common.rs:39-50 | object patches with disjoint keys commute |
| JsonValues.MergeKeepsKeys | crates/store/src/common.rs:39-50 | an object patch never removes a key |
| JsonValues.MergeReplaces | crates/store/src/common.rs:39-50 | a merge leaves exactly the patch precisely when the patch names every key of the base, at every depth where both are objects |
| JsonValues.BackendsAgree | crates/store/src/sqlite.rs:313-372 | the two stores merge a patch the same way into every document exactly when no top-level value of it is an object |
| Context.ConversationContext.SetSystem | crates/agent/src/context.rs:38-44 | one system message in front of the unchanged rest |
| Context.ConversationContext.TruncateToFit | crates/agent/src/context.rs:77-122 | unchanged when it fits, otherwise the system message and the longest suffix of the rest that fits the remaining budget |
| Context.KeepFromEnd | crates/agent/src/context.rs:103-113 | the reverse loop keeps the longest fitting suffix |
| Context.EstimateExactly | crates/agent/src/context.rs:125-135 | a message weighs a quarter of the bytes of its text, rounded down, at least one; a tool result that of its content alone |
| Context.CallsWeigh | crates/agent/src/context.rs:125-135 | tool calls weigh a quarter of their bytes together |
| Context.CallsLenAppend | crates/agent/src/context.rs:128-131 | which are those of names, arguments and identifiers |
| Context.WeighsOne | crates/agent/src/context.rs:134 | a number of bytes has one weight |
| TextLaws.LenBounds | crates/agent/src/context.rs:127-132 | byte lengths are UTF-8 lengths: the number of characters exactly for ASCII text |
| Context.ConversationContext.LastUserMessage | crates/agent/src/context.rs:143-148 | the content of the last user message, none exactly when there is no user message |
| Context.TruncatedUnique | crates/agent/src/context.rs:77-122 | the truncation result is unique |
| Context.TruncatedFits | crates/agent/src/context.rs:77-122 | the result fits the limit exactly when the system message alone does |
| Context.TruncateIdempotent | crates/agent/src/context.rs:77-122 | truncating again changes nothing |
| Context.OneSystemAlways | crates/agent/src/context.rs:38-122 | over every run there is at most one system message, and it is first |
| Context.SystemSurvives | crates/agent/src/context.rs:38-122 | the system message set last survives every later addition and truncation |

## Left out

* One task per run: runs of different tasks share nothing but the store and the branch tasks, which appear here as
  branches that change on their own.
* The flow definition is fixed during a run, and it is assumed to have come through `register_flow_def` or
  `load_flows_from_dir`, since `load_flows` does not validate. That `initial_state` is the Start state is assumed too;
  validation does not check it.
* The store's SQL. The model uses the contract of `StateStore`: a commit succeeds only on a matching version and moves
  everything together. Writes of the status other than by commits appear only as cancelling.
* Events, tracing and metrics: a publish either succeeds or fails and has no other effect.
* Clocks are integers handed to each step, in whole seconds in the flow engine and nanoseconds in the tracker. An
  `Instant` less than sixty seconds after its epoch is not part of this model.
* Task inputs, outputs of whole tasks, timestamps, actors and reasons of transitions.
* The text of the timeout error, which in the source names the number of seconds, is one constant.
* Whether a text is a UUID is a parameter; identifiers of new branches are drawn by the schedule and never repeat.
* `StateStore` reads of a missing task fail like any other store failure, except where the source tells them apart.
* The dispatch loops that call `advance_by_id`, event subscriptions and the retry queue behind `flow.retry`.
* Lower-casing is a parameter of the shell check, and the JSON printer and parser are parameters of the streaming
  round trip, assumed inverse to each other.
* The splitter works on characters where the source works on bytes; the bytes it looks at are ASCII, and the tail of a
  multi-byte character is never one of them.
* Risk classification, sensitive paths, path canonicalisation, URL rules, approvals and the emergency stop.
* Concurrent use of one embedding cache, one debouncer or one context; errors of the cache's database.
* The repeat counter of the loop detector is unbounded here; in the source it is 32 bits wide.
* Tool execution around the loop detector, hooks, truncation of outputs.
* Floating-point rounding and NaN: MMR is over reals, embeddings are bit patterns. Cosine similarity and temporal
  decay.
* Slot indices of streamed tool calls are unbounded; the source allocates a slot for every smaller index.
- Tracker.WindowBound: holds for logs whose window counts fit in 32 bits, because the count is truncated; WrapAdmits shows that it fails beyond.
- Tracker.LimitsHold: needs the same, for both deques of the guard.
- ShellCheck.JoinedVerdict: stated for first commands that end cleanly; for others the segments themselves differ, exactly as OperatorLaw says.
