/** What a run's commits were based on: every snapshot and every branch result was once in the store. */
module FlowHistory {
  import opened Wrappers
  import opened JsonValues
  import opened Condition
  import opened Flow
  import opened FlowEngine
  import opened FlowSafety
  import opened FlowTheorems

  /** At some earlier moment of the run the store held this task. */
  ghost predicate TaskSeen(cfg: Config, actions: seq<Action>, snap: Task) {
    exists n: nat :: n <= |actions| && Reach(cfg, actions[..n]).shared.task == snap
  }

  /** First the task and then the flow state were in the store. */
  ghost predicate FlowSeen(cfg: Config, actions: seq<Action>, snap: Task, flow: FlowState) {
    exists t: nat, f: nat :: t <= f <= |actions|
      && Reach(cfg, actions[..t]).shared.task == snap && Reach(cfg, actions[..f]).shared.flow == flow
  }

  /** First the task was in the store and then the branch was completed with this output. */
  ghost predicate CompletedSeen(cfg: Config, actions: seq<Action>, snap: Task, id: TaskId, output: Json) {
    exists t: nat, c: nat :: t <= c <= |actions|
      && Reach(cfg, actions[..t]).shared.task == snap && CompletedWith(Reach(cfg, actions[..c]).shared, id, output)
  }

  predicate CompletedWith(s: Shared, id: TaskId, output: Json) {
    id in s.branches && s.branches[id].status.Completed?
    && output == s.branches[id].output.GetOr(Obj(map["_no_output" := Bool(true)]))
  }

  ghost predicate ResultsSeen(cfg: Config, actions: seq<Action>, snap: Task, results: Results) {
    forall id :: id in results && results[id].Finished? ==> CompletedSeen(cfg, actions, snap, id, results[id].output)
  }

  ghost predicate MoveSeen(cfg: Config, actions: seq<Action>, m: Move) {
    && TaskSeen(cfg, actions, m.snap)
    && (m.cause.Matched? || m.cause.Fallback? ==> FlowSeen(cfg, actions, m.snap, m.cause.flow))
    && (m.cause.Joined? ==> ResultsSeen(cfg, actions, m.snap, m.cause.results))
  }

  /** Commit number `i` was made by some action of the run, and everything it was decided on lies before that action. */
  ghost predicate CommitSeen(cfg: Config, actions: seq<Action>, i: nat) {
    exists n: nat :: CommittedBy(cfg, actions, i, n)
  }

  ghost predicate CommittedBy(cfg: Config, actions: seq<Action>, i: nat, n: nat) {
    && n < |actions| && i < |Reach(cfg, actions).shared.log|
    && |Reach(cfg, actions[..n]).shared.log| == i
    && MoveSeen(cfg, actions[..n], Reach(cfg, actions).shared.log[i].move)
  }

  ghost predicate PcSeen(cfg: Config, actions: seq<Action>, pc: Pc) {
    match pc
    case ReadFlow(_, snap) => TaskSeen(cfg, actions, snap)
    case Commit(m) => MoveSeen(cfg, actions, m)
    case Announce(m) => MoveSeen(cfg, actions, m)
    case OnEnter(m, _) => MoveSeen(cfg, actions, m)
    case SaveRetry(snap, flow) =>
      flow.retryCount > 0 && FlowSeen(cfg, actions, snap, flow.(retryCount := flow.retryCount - 1))
    case ScanBranches(snap, _, _, scan) => TaskSeen(cfg, actions, snap) && ResultsSeen(cfg, actions, snap, scan.results)
    case Sweep(snap, _, _, scan) => TaskSeen(cfg, actions, snap) && ResultsSeen(cfg, actions, snap, scan.results)
    case CheckVersion(snap, results, _) => TaskSeen(cfg, actions, snap) && ResultsSeen(cfg, actions, snap, results)
    case MergeResults(snap, results, _) => TaskSeen(cfg, actions, snap) && ResultsSeen(cfg, actions, snap, results)
    case _ => true
  }

  ghost predicate AllSeen(cfg: Config, actions: seq<Action>) {
    var sys := Reach(cfg, actions);
    && (forall w :: w in sys.workers ==> PcSeen(cfg, actions, sys.workers[w]))
    && (forall i: nat :: i < |sys.shared.log| ==> CommitSeen(cfg, actions, i))
  }

  // ── what was seen stays seen in a longer run ──

  lemma SeenNow(cfg: Config, actions: seq<Action>, snap: Task)
    ensures TaskSeen(cfg, actions, Reach(cfg, actions).shared.task)
    ensures TaskSeen(cfg, actions, snap) ==> FlowSeen(cfg, actions, snap, Reach(cfg, actions).shared.flow)
    ensures TaskSeen(cfg, actions, snap) ==>
              forall id, output :: CompletedWith(Reach(cfg, actions).shared, id, output) ==>
                CompletedSeen(cfg, actions, snap, id, output)
  {
    assert actions[..|actions|] == actions;
  }

  lemma TaskStaysSeen(cfg: Config, actions: seq<Action>, a: Action, snap: Task)
    requires TaskSeen(cfg, actions, snap)
    ensures TaskSeen(cfg, actions + [a], snap)
  {
    var n: nat :| n <= |actions| && Reach(cfg, actions[..n]).shared.task == snap;
    assert (actions + [a])[..n] == actions[..n];
  }

  lemma FlowStaysSeen(cfg: Config, actions: seq<Action>, a: Action, snap: Task, flow: FlowState)
    requires FlowSeen(cfg, actions, snap, flow)
    ensures FlowSeen(cfg, actions + [a], snap, flow)
  {
    var t: nat, f: nat :| t <= f <= |actions|
      && Reach(cfg, actions[..t]).shared.task == snap && Reach(cfg, actions[..f]).shared.flow == flow;
    assert (actions + [a])[..t] == actions[..t] && (actions + [a])[..f] == actions[..f];
  }

  lemma CompletedStaysSeen(cfg: Config, actions: seq<Action>, a: Action, snap: Task, id: TaskId, output: Json)
    requires CompletedSeen(cfg, actions, snap, id, output)
    ensures CompletedSeen(cfg, actions + [a], snap, id, output)
  {
    var t: nat, c: nat :| t <= c <= |actions|
      && Reach(cfg, actions[..t]).shared.task == snap && CompletedWith(Reach(cfg, actions[..c]).shared, id, output);
    assert (actions + [a])[..t] == actions[..t] && (actions + [a])[..c] == actions[..c];
  }

  lemma ResultsStaySeen(cfg: Config, actions: seq<Action>, a: Action, snap: Task, results: Results)
    requires ResultsSeen(cfg, actions, snap, results)
    ensures ResultsSeen(cfg, actions + [a], snap, results)
  {
    forall id | id in results && results[id].Finished?
      ensures CompletedSeen(cfg, actions + [a], snap, id, results[id].output)
    {
      CompletedStaysSeen(cfg, actions, a, snap, id, results[id].output);
    }
  }

  lemma MoveStaysSeen(cfg: Config, actions: seq<Action>, a: Action, m: Move)
    requires MoveSeen(cfg, actions, m)
    ensures MoveSeen(cfg, actions + [a], m)
  {
    hide TaskSeen, FlowSeen, ResultsSeen;
    TaskStaysSeen(cfg, actions, a, m.snap);
    if m.cause.Matched? || m.cause.Fallback? { FlowStaysSeen(cfg, actions, a, m.snap, m.cause.flow); }
    if m.cause.Joined? { ResultsStaySeen(cfg, actions, a, m.snap, m.cause.results); }
  }

  lemma PcStaysSeen(cfg: Config, actions: seq<Action>, a: Action, pc: Pc)
    requires PcSeen(cfg, actions, pc)
    ensures PcSeen(cfg, actions + [a], pc)
  {
    hide TaskSeen, ResultsSeen, MoveSeen;
    match pc {
      case ReadFlow(_, snap) => TaskStaysSeen(cfg, actions, a, snap);
      case Commit(m) => MoveStaysSeen(cfg, actions, a, m);
      case Announce(m) => MoveStaysSeen(cfg, actions, a, m);
      case OnEnter(m, _) => MoveStaysSeen(cfg, actions, a, m);
      case SaveRetry(snap, flow) =>
        FlowStaysSeen(cfg, actions, a, snap, flow.(retryCount := flow.retryCount - 1));
      case ScanBranches(snap, _, _, scan) =>
        TaskStaysSeen(cfg, actions, a, snap); ResultsStaySeen(cfg, actions, a, snap, scan.results);
      case Sweep(snap, _, _, scan) =>
        TaskStaysSeen(cfg, actions, a, snap); ResultsStaySeen(cfg, actions, a, snap, scan.results);
      case CheckVersion(snap, results, _) =>
        TaskStaysSeen(cfg, actions, a, snap); ResultsStaySeen(cfg, actions, a, snap, results);
      case MergeResults(snap, results, _) =>
        TaskStaysSeen(cfg, actions, a, snap); ResultsStaySeen(cfg, actions, a, snap, results);
      case _ =>
    }
  }

  // ── one step uses only what has been seen ──

  lemma ScanOneSeen(cfg: Config, actions: seq<Action>, snap: Task, id: TaskId, scan: Scan)
    requires TaskSeen(cfg, actions, snap) && ResultsSeen(cfg, actions, snap, scan.results)
    ensures var s := Reach(cfg, actions).shared;
            var branch := if id in s.branches then Some(s.branches[id]) else None;
            ResultsSeen(cfg, actions, snap, ScanOne(id, branch, scan).results)
  {
    hide CompletedSeen;
    SeenNow(cfg, actions, snap);
    var s := Reach(cfg, actions).shared;
    assert id in s.branches && s.branches[id].status.Completed? ==>
        CompletedWith(s, id, s.branches[id].output.GetOr(Obj(map["_no_output" := Bool(true)])));
  }

  lemma AfterScanSeen(cfg: Config, actions: seq<Action>, snap: Task, ids: seq<TaskId>, scan: Scan, now: int)
    requires AtParallel(cfg, snap) && TaskSeen(cfg, actions, snap) && ResultsSeen(cfg, actions, snap, scan.results)
    ensures PcSeen(cfg, actions, AfterScan(cfg, snap, ids, scan, now))
    ensures PcSeen(cfg, actions, AfterSweep(cfg, snap, scan))
  {
    hide TaskSeen, ResultsSeen;
  }

  lemma AfterFailureSeen(cfg: Config, actions: seq<Action>, m: Move, e: EngineError, lost: bool)
    requires MoveSeen(cfg, actions, m)
    ensures PcSeen(cfg, actions, AfterFailure(cfg, m, e, lost))
  {
    hide TaskSeen, FlowSeen, ResultsSeen;
    if m.cause.Matched? {
      var flow := m.cause.flow;
      assert flow.(retryCount := flow.retryCount + 1).(retryCount := flow.retryCount) == flow;
    }
  }

  lemma SweepSeen(cfg: Config, actions: seq<Action>, snap: Task, id: TaskId, scan: Scan)
    requires ResultsSeen(cfg, actions, snap, scan.results)
    ensures ResultsSeen(cfg, actions, snap, SweepScan(id, scan).results)
  {
    hide CompletedSeen;
  }

  lemma ParallelSeen(cfg: Config, actions: seq<Action>, pc: Pc, c: Choice)
    requires PcSeen(cfg, actions, pc) && !pc.Announce? && !pc.OnEnter? && !pc.ReadFlow? && !pc.Commit?
    ensures PcSeen(cfg, actions, StepParallel(cfg, Reach(cfg, actions).shared, pc, c).1)
  {
    hide TaskSeen, ResultsSeen, Reach, ScanOne, SweepScan, AfterScan, AfterSweep, MergeData, RecordPatch, ResultsPatch,
         BranchInput;
    match pc {
      case ScanBranches(snap, ids, k, scan) =>
        if AtParallel(cfg, snap) {
          AfterScanSeen(cfg, actions, snap, ids, scan, c.now);
          if k < |ids| {
            ScanOneSeen(cfg, actions, snap, ids[k], scan);
            var s := Reach(cfg, actions).shared;
            var branch := if ids[k] in s.branches then Some(s.branches[ids[k]]) else None;
            AfterScanSeen(cfg, actions, snap, ids, ScanOne(ids[k], branch, scan), c.now);
          }
        }
      case Sweep(snap, ids, k, scan) =>
        if AtParallel(cfg, snap) {
          AfterScanSeen(cfg, actions, snap, ids, scan.(allCompleted := true), c.now);
          if k < |ids| { SweepSeen(cfg, actions, snap, ids[k], scan); }
        }
      case _ =>
    }
  }

  lemma ReadSeen(cfg: Config, actions: seq<Action>, i: nat)
    ensures PcSeen(cfg, actions, AfterRead(cfg, i, Reach(cfg, actions).shared.task))
  {
    hide TaskSeen, CompletedSeen, Reach, Recorded;
    SeenNow(cfg, actions, Reach(cfg, actions).shared.task);
  }

  lemma StepSeen(cfg: Config, actions: seq<Action>, w: WorkerId, pc: Pc, c: Choice)
    requires PcSeen(cfg, actions, pc)
    ensures PcSeen(cfg, actions, Step(cfg, Reach(cfg, actions).shared, w, pc, c).1)
  {
    hide TaskSeen, FlowSeen, ResultsSeen, Reach, StepParallel, MergeData, Decide, AfterRead, AfterFailure, CommitMove;
    SeenNow(cfg, actions, if pc.ReadFlow? then pc.snap else Reach(cfg, actions).shared.task);
    match pc {
      case Commit(m) =>
        AfterFailureSeen(cfg, actions, m, Conflict, false);
        AfterFailureSeen(cfg, actions, m, StoreFault, true);
      case Announce(m) => AfterFailureSeen(cfg, actions, m, BusFault, false);
      case OnEnter(m, _) =>
        AfterFailureSeen(cfg, actions, m, BusFault, false);
        AfterFailureSeen(cfg, actions, m, StoreFault, false);
      case ReadTask(i) => ReadSeen(cfg, actions, i);
      case ReadForced(_) =>
      case ReadFlow(_, _) =>
      case SaveRetry(_, _) =>
      case AnnounceRetry =>
      case Done(_) =>
      case _ => ParallelSeen(cfg, actions, pc, c);
    }
  }

  lemma StepLog(cfg: Config, s: Shared, w: WorkerId, pc: Pc, c: Choice)
    ensures var s' := Step(cfg, s, w, pc, c).0;
            s'.log == s.log || (pc.Commit? && s'.log == s.log + [Committed(w, pc.move)])
  {
    hide StoreMerge, StatusFor, AfterFailure, AfterRead, AfterScan, AfterSweep, RecordPatch, ResultsPatch, BranchInput;
  }

  lemma OneMoreSeen(cfg: Config, actions: seq<Action>, a: Action)
    requires AllSeen(cfg, actions)
    ensures AllSeen(cfg, actions + [a])
  {
    hide PcSeen, MoveSeen, Step, MergeData;
    var sys, sys' := Reach(cfg, actions), Reach(cfg, actions + [a]);
    assert (actions + [a])[..|actions|] == actions;
    assert sys' == Apply(cfg, sys, a);
    if a.AgentMerge? { MergeLog(cfg, sys.shared, a.patch); }
    if a.Act? && a.w in sys.workers {
      StepLog(cfg, sys.shared, a.w, sys.workers[a.w], a.choice);
      StepSeen(cfg, actions, a.w, sys.workers[a.w], a.choice);
      CommitsSeen(cfg, actions, sys.workers[a.w]);
    }
    forall w | w in sys'.workers ensures PcSeen(cfg, actions + [a], sys'.workers[w]) {
      if a.Launch? || a.LaunchForced? { LaunchSeen(cfg, actions, a); }
      PcStaysSeen(cfg, actions, a, sys'.workers[w]);
    }
    forall i: nat | i < |sys'.shared.log| ensures CommitSeen(cfg, actions + [a], i) {
      if i < |sys.shared.log| {
        CommitStaysSeen(cfg, actions, a, i);
      } else {
        assert CommittedBy(cfg, actions + [a], i, |actions|);
      }
    }
  }

  lemma CommitStaysSeen(cfg: Config, actions: seq<Action>, a: Action, i: nat)
    requires CommitSeen(cfg, actions, i)
    requires Reach(cfg, actions).shared.log <= Reach(cfg, actions + [a]).shared.log
    ensures CommitSeen(cfg, actions + [a], i)
  {
    hide MoveSeen, Reach;
    var n: nat :| CommittedBy(cfg, actions, i, n);
    assert (actions + [a])[..n] == actions[..n];
    assert CommittedBy(cfg, actions + [a], i, n);
  }

  lemma CommitsSeen(cfg: Config, actions: seq<Action>, pc: Pc)
    requires PcSeen(cfg, actions, pc)
    ensures pc.Commit? ==> MoveSeen(cfg, actions, pc.move)
  {
  }

  lemma LaunchSeen(cfg: Config, actions: seq<Action>, a: Action)
    ensures PcSeen(cfg, actions, ReadTask(0))
    ensures a.LaunchForced? ==> PcSeen(cfg, actions, ReadForced(a.target))
  {
  }

  /** Every commit was decided on a task, then a flow state, and branch results, that the store had held in this order
      before the commit. */
  lemma {:induction false} EverythingSeen(cfg: Config, actions: seq<Action>)
    ensures AllSeen(cfg, actions)
    decreases |actions|
  {
    if actions != [] {
      var n := |actions| - 1;
      EverythingSeen(cfg, actions[..n]);
      OneMoreSeen(cfg, actions[..n], actions[n]);
      assert actions[..n] + [actions[n]] == actions;
    }
  }
}
