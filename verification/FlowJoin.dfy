/** Leaving a Parallel state, what the join stores, and what an error in the task data decides. */
module FlowJoin {
  import opened Wrappers
  import opened JsonValues
  import opened Condition
  import opened Flow
  import opened FlowEngine
  import opened FlowSafety
  import opened FlowTheorems
  import opened FlowHistory

  // ── the join ──

  /** Without force, a task leaves a Parallel state only by a join over the recorded branches. Under `All`, every
      recorded branch had been seen completed before the commit and after the parent was read, and the results hold
      exactly one entry, its output, for each of them; that holds too where no strategy is named; so a failed, timed-out or missing recorded branch keeps the
      parent where it is. `n` is the action that commits. */
  lemma ParallelLeftByJoin(cfg: Config, actions: seq<Action>, i: nat) returns (n: nat)
    requires Registered(cfg) && i < |Reach(cfg, actions).shared.log|
    requires var m := Reach(cfg, actions).shared.log[i].move; AtParallel(cfg, m.snap) && !m.cause.Forced?
    ensures n < |actions| && |Reach(cfg, actions[..n]).shared.log| == i
    ensures var m := Reach(cfg, actions).shared.log[i].move;
            && m.cause.Joined?
            && TaskSeen(cfg, actions[..n], m.snap)
            && Recorded(m.snap.stateData) != []
            && (m.cause.failed ==> StateOf(cfg, m.snap).joinStrategy == Some(FailFast))
            && (!m.cause.failed ==>
                  && (forall id :: id in m.cause.results <==> id in Recorded(m.snap.stateData))
                  && (forall id :: id in m.cause.results ==>
                        && m.cause.results[id].Finished?
                        && CompletedSeen(cfg, actions[..n], m.snap, id, m.cause.results[id].output)))
            && (StateOf(cfg, m.snap).joinStrategy != Some(FailFast) ==> !m.cause.failed)
  {
    Reachable(cfg, actions);
    EverythingSeen(cfg, actions);
    var s := Reach(cfg, actions).shared;
    assert CommitOk(cfg, s.log, i);
    assert CommitSeen(cfg, actions, i);
    n :| CommittedBy(cfg, actions, i, n);
    hide CompletedSeen, TaskSeen;
    var m := s.log[i].move;
    var ids := Recorded(m.snap.stateData);
    if !m.cause.failed {
      forall id | id in ids ensures id in m.cause.results {
        var j :| 0 <= j < |ids| && ids[j] == id;
      }
    }
  }

  // ── an error key, once present, stays and decides ──

  lemma ErrorStays(cfg: Config, actions: seq<Action>, more: seq<Action>)
    requires Registered(cfg) && "error" in Reach(cfg, actions).shared.task.stateData
    ensures "error" in Reach(cfg, actions + more).shared.task.stateData
  {
    ReachGrows(cfg, actions, more);
  }

  /** The status of a task in an End state is decided by the snapshot of the worker that moved it there, and so is the
      text of a failure. */
  lemma FinalStatus(cfg: Config, actions: seq<Action>)
    requires Registered(cfg) && !CancelStands(cfg, actions)
    requires var s := Reach(cfg, actions).shared; cfg.def.HasType(s.task.currentState, End)
    ensures var s := Reach(cfg, actions).shared;
            && s.log != []
            && (s.task.status.Failed? <==> "error" in s.log[|s.log| - 1].move.snap.stateData)
            && (s.task.status == Completed <==> "error" !in s.log[|s.log| - 1].move.snap.stateData)
            && (s.task.status.Failed? ==>
                  var error := s.log[|s.log| - 1].move.snap.stateData["error"];
                  s.task.status.error == if error.Str? then error.s else "flow reached failure state")
  {
    Reachable(cfg, actions);
    CancelledExactly(cfg, actions);
    var s := Reach(cfg, actions).shared;
    assert s.log == [] ==> s.task.currentState == cfg.def.initialState;
  }

  /** If the error was there when the finishing worker read the task, the task fails. */
  lemma ErrorDecides(cfg: Config, actions: seq<Action>, n: nat, r: nat)
    requires Registered(cfg) && !CancelStands(cfg, actions) && n <= r <= |actions|
    requires "error" in Reach(cfg, actions[..n]).shared.task.stateData
    requires var s := Reach(cfg, actions).shared;
             && cfg.def.HasType(s.task.currentState, End) && s.log != []
             && s.log[|s.log| - 1].move.snap == Reach(cfg, actions[..r]).shared.task
    ensures Reach(cfg, actions).shared.task.status.Failed?
  {
    assert actions[..r] == actions[..n] + actions[n..r];
    ErrorStays(cfg, actions[..n], actions[n..r]);
    FinalStatus(cfg, actions);
  }

  /** Where a fail-fast join takes the task: the target of the first automatic transition. */
  function JoinTarget(cfg: Config, snap: Task): Option<StateName>
    requires AtParallel(cfg, snap)
  {
    var ts := StateOf(cfg, snap).transitions;
    match FirstAuto(ts, 0)
    case None => None
    case Some(k) => Some(ts[k].to)
  }

  /** The documented effect of fail-fast, as the code meets it: there is somewhere to go, it is an End state, and an
      error was in the data already. */
  predicate FailsParent(cfg: Config, snap: Task)
    requires AtParallel(cfg, snap)
  {
    JoinTarget(cfg, snap).Some? && cfg.def.HasType(JoinTarget(cfg, snap).value, End) && "error" in snap.stateData
  }

  /** A fail-fast join merges an `error` into the task and then moves it, if it can, with the snapshot from before the
      merge: the parent is failed exactly under `FailsParent`. */
  lemma FailFastStatus(cfg: Config, s: Shared, w: WorkerId, snap: Task, results: Results, merge: Choice, commit: Choice)
    requires AtParallel(cfg, snap) && s.task.version == snap.version && !s.task.status.Failed?
    requires merge.ok && commit.ok
    ensures var (s1, pc1) := Step(cfg, s, w, MergeResults(snap, results, true), merge);
            var s2 := if pc1.Commit? then Step(cfg, s1, w, pc1, commit).0 else s1;
            var target := JoinTarget(cfg, snap);
            && (pc1.Commit? <==> target.Some?)
            && (target.Some? ==>
                  s2.task.currentState == target.value && s2.task.status == StatusFor(cfg.def, snap, target.value))
            && "error" in s2.task.stateData
            && (s2.task.status.Failed? <==> FailsParent(cfg, snap))
  {
    var (s1, pc1) := Step(cfg, s, w, MergeResults(snap, results, true), merge);
    MergeHasError(cfg, s, results);
  }

  /** In every run, whenever the last commit is a join, fail-fast or not, and no cancellation stands, the task is failed
      exactly under `FailsParent`. */
  lemma FailFastCommitted(cfg: Config, actions: seq<Action>)
    requires Registered(cfg) && !CancelStands(cfg, actions)
    requires var log := Reach(cfg, actions).shared.log; log != [] && log[|log| - 1].move.cause.Joined?
    ensures var s := Reach(cfg, actions).shared;
            var m := s.log[|s.log| - 1].move;
            && AtParallel(cfg, m.snap) && JoinTarget(cfg, m.snap) == Some(m.target)
            && (s.task.status.Failed? <==> FailsParent(cfg, m.snap))
  {
    Reachable(cfg, actions);
    CancelledExactly(cfg, actions);
    var s := Reach(cfg, actions).shared;
    assert CommitOk(cfg, s.log, |s.log| - 1);
  }

  /** In every run, a fail-fast join without an automatic transition ends the worker and leaves state and status of
      the task as they are, however many branches failed. */
  lemma FailFastBlocked(cfg: Config, actions: seq<Action>, w: WorkerId, snap: Task, results: Results, c: Choice)
    requires Registered(cfg) && w in Reach(cfg, actions).workers
    requires Reach(cfg, actions).workers[w] == MergeResults(snap, results, true) && c.ok
    ensures AtParallel(cfg, snap)
    ensures JoinTarget(cfg, snap).None? ==>
              var sys, sys' := Reach(cfg, actions), Reach(cfg, actions + [Act(w, c)]);
              && sys'.workers[w] == Done(Ok(()))
              && sys'.shared.log == sys.shared.log
              && sys'.shared.task.currentState == sys.shared.task.currentState
              && sys'.shared.task.status == sys.shared.task.status
              && "error" in sys'.shared.task.stateData
  {
    var sys := Reach(cfg, actions);
    Reachable(cfg, actions);
    assert WorkerOk(cfg, sys.shared, sys.workers[w]);
    OneMore(cfg, actions, Act(w, c));
    MergeHasError(cfg, sys.shared, results);
  }

  lemma MergeHasError(cfg: Config, s: Shared, results: Results)
    ensures var s' := MergeData(cfg, s, ResultsPatch(results, true));
            && "error" in s'.task.stateData && s'.task.version == s.task.version
            && s'.task.stateData["error"] == Str("parallel branch failed (fail_fast)")
  {
    var patch := ResultsPatch(results, true);
    assert patch["error"] == Str("parallel branch failed (fail_fast)");
    assert Merged(Existing(s.task.stateData, "error"), patch["error"]) == patch["error"];
  }

  // ── what the join leaves in the task ──

  /** The results as they are merged under `_parallel_results`. */
  function ResultsDocument(results: Results): Json {
    Obj(map id | id in results :: ResultJson(results[id]))
  }

  /** A finished branch is represented by its output, one that failed by an object with its error. */
  lemma ResultEntries(results: Results)
    ensures ResultsDocument(results).Obj? && ResultsDocument(results).fields.Keys == results.Keys
    ensures forall id :: id in results ==>
              && (results[id].Finished? ==> ResultsDocument(results).fields[id] == results[id].output)
              && (results[id].BranchError? ==>
                    ResultsDocument(results).fields[id] == Obj(map["error" := Str(results[id].error)]))
  {
  }

  /** After the merge, SQLite holds exactly the results under `_parallel_results`. PostgreSQL holds the results merged
      into what was there, which is exactly the results precisely when they overwrite it: no other branch's entry and
      no other key inside a branch's entry was left from an earlier join. */
  lemma StoredResults(cfg: Config, s: Shared, w: WorkerId, snap: Task, results: Results, failed: bool, c: Choice)
    requires AtParallel(cfg, snap) && c.ok
    ensures var s' := Step(cfg, s, w, MergeResults(snap, results, failed), c).0;
            var before, doc := Existing(s.task.stateData, "_parallel_results"), ResultsDocument(results);
            && "_parallel_results" in s'.task.stateData
            && var after := s'.task.stateData["_parallel_results"];
               && (cfg.backend.Sqlite? ==> after == doc)
               && (cfg.backend.Postgres? ==> after == Merged(before, doc) && (after == doc <==> Overwrites(doc, before)))
  {
    MergeReplaces(Existing(s.task.stateData, "_parallel_results"), ResultsDocument(results));
  }
}
