/** What every step of every worker keeps, and what follows for all runs. */
module FlowSafety {
  import opened Wrappers
  import opened JsonValues
  import opened Condition
  import opened Flow
  import opened FlowEngine

  // ── the committed path ──

  /** The state the log leads to after its first `v` commits. */
  function StateAt(cfg: Config, log: seq<Committed>, v: nat): StateName
    requires v <= |log|
  {
    if v == 0 then cfg.def.initialState else log[v - 1].move.target
  }

  ghost predicate IdsIn(results: Results, ids: seq<TaskId>) {
    forall id :: id in results ==> id in ids
  }

  ghost predicate AllFinished(results: Results) {
    forall id :: id in results ==> results[id].Finished?
  }

  ghost predicate Covers(results: Results, ids: seq<TaskId>, n: nat) {
    forall j :: 0 <= j < n && j < |ids| ==> ids[j] in results
  }

  ghost predicate Distinct(ids: seq<TaskId>) {
    forall i, j :: 0 <= i < j < |ids| ==> ids[i] != ids[j]
  }

  /** The failure flag and the recorded results agree; a repeated identifier may overwrite its own failure. */
  ghost predicate FlagOk(ids: seq<TaskId>, anyFailed: bool, results: Results) {
    && (!anyFailed ==> AllFinished(results))
    && (anyFailed && Distinct(ids) ==> !AllFinished(results))
  }

  /** A join carries one result per recorded branch, all finished under a successful join; a failed one is only
      ever a fail-fast join. */
  ghost predicate JoinOk(cfg: Config, snap: Task, results: Results, failed: bool) {
    && AtParallel(cfg, snap)
    && Recorded(snap.stateData) != []
    && IdsIn(results, Recorded(snap.stateData))
    && FlagOk(Recorded(snap.stateData), failed, results)
    && (failed ==> StrategyOf(StateOf(cfg, snap)).FailFast?)
    && (!failed ==> Covers(results, Recorded(snap.stateData), |Recorded(snap.stateData)|))
  }

  /** A move is justified by what the worker read. */
  ghost predicate Justified(cfg: Config, m: Move) {
    && m.target in cfg.def.states
    && match m.cause
       case Matched(i, flow, k, now) =>
         && Ordinary(cfg, m.snap)
         && FirstFiring(StateOf(cfg, m.snap).transitions, k, FactsOf(cfg, m.snap, flow, now))
         && m.target == StateOf(cfg, m.snap).transitions[k].to
       case Fallback(flow, lost) =>
         && Ordinary(cfg, m.snap)
         && cfg.def.onError.Some?
         && m.snap.currentState in cfg.def.onError.value.retryStates
         && flow.retryCount >= cfg.def.onError.value.maxRetries
         && m.target == cfg.def.onError.value.fallback
         && (lost ==> !cfg.reliable)
       case Forced => true
       case Joined(results, failed) =>
         && JoinOk(cfg, m.snap, results, failed)
         && var k := FirstAuto(StateOf(cfg, m.snap).transitions, 0);
            k.Some? && m.target == StateOf(cfg, m.snap).transitions[k.value].to
  }

  /** Commit number `i` read version `i` and the state the commits before it lead to. */
  ghost predicate CommitOk(cfg: Config, log: seq<Committed>, i: nat)
    requires i < |log|
  {
    var m := log[i].move;
    && m.snap.version == i
    && m.snap.currentState == StateAt(cfg, log, i)
    && Justified(cfg, m)
    && (m.cause.Fallback? ==> m.cause.lost)
  }

  function Settled(cfg: Config, log: seq<Committed>): TaskStatus {
    if log == [] then Running else StatusFor(cfg.def, log[|log| - 1].move.snap, log[|log| - 1].move.target)
  }

  ghost predicate SharedOk(cfg: Config, s: Shared) {
    && |s.log| == s.task.version
    && s.task.currentState == StateAt(cfg, s.log, |s.log|)
    && s.task.currentState in cfg.def.states
    && (forall i :: 0 <= i < |s.log| ==> CommitOk(cfg, s.log, i))
    && (s.task.status == Cancelled || s.task.status == Settled(cfg, s.log))
  }

  // ── what a worker may rely on about its snapshot ──

  /** A snapshot is some past state of the task; an error key it saw is still there. */
  ghost predicate SnapOk(cfg: Config, s: Shared, snap: Task) {
    && snap.version <= |s.log|
    && snap.currentState == StateAt(cfg, s.log, snap.version)
    && ("error" in snap.stateData ==> "error" in s.task.stateData)
  }

  ghost predicate ScanOk(ids: seq<TaskId>, next: nat, scan: Scan) {
    && next <= |ids|
    && IdsIn(scan.results, ids[..next])
    && FlagOk(ids, scan.anyFailed, scan.results)
    && (scan.allCompleted ==> Covers(scan.results, ids, next))
  }

  ghost predicate BranchesRead(cfg: Config, snap: Task, ids: seq<TaskId>) {
    AtParallel(cfg, snap) && ids == Recorded(snap.stateData) && ids != []
  }

  /** A fallback after anything but a lost commit holds a stale snapshot, so it can never commit. */
  ghost predicate MoveOk(cfg: Config, s: Shared, m: Move) {
    && SnapOk(cfg, s, m.snap)
    && Justified(cfg, m)
    && (m.cause.Matched? ==> m.cause.iteration < MAX_CASCADE_DEPTH && m.cause.iteration <= m.snap.version)
    && (m.cause.Fallback? && !m.cause.lost ==> m.snap.version < |s.log|)
  }

  ghost predicate WorkerOk(cfg: Config, s: Shared, pc: Pc) {
    match pc
    case ReadTask(i) => i < MAX_CASCADE_DEPTH && i <= |s.log|
    case ReadForced(_) => true
    case ReadFlow(i, snap) => i < MAX_CASCADE_DEPTH && i <= snap.version && SnapOk(cfg, s, snap) && Ordinary(cfg, snap)
    case Commit(m) => MoveOk(cfg, s, m)
    case Announce(m) => MoveOk(cfg, s, m) && m.snap.version < |s.log|
    case OnEnter(m, _) => MoveOk(cfg, s, m) && m.snap.version < |s.log|
    case SaveRetry(_, _) => true
    case AnnounceRetry => true
    case Spawn(snap, _) => AtParallel(cfg, snap)
    case AnnounceBranch(snap, _) => AtParallel(cfg, snap)
    case RecordBranches(snap, _) => AtParallel(cfg, snap)
    case ScanBranches(snap, ids, k, scan) =>
      SnapOk(cfg, s, snap) && BranchesRead(cfg, snap, ids) && ScanOk(ids, k, scan)
    case Sweep(snap, ids, k, scan) =>
      && SnapOk(cfg, s, snap) && BranchesRead(cfg, snap, ids) && k <= |ids|
      && IdsIn(scan.results, ids) && FlagOk(ids, scan.anyFailed, scan.results) && Covers(scan.results, ids, k)
    case CheckVersion(snap, results, failed) => SnapOk(cfg, s, snap) && JoinOk(cfg, snap, results, failed)
    case MergeResults(snap, results, failed) => SnapOk(cfg, s, snap) && JoinOk(cfg, snap, results, failed)
    case Done(outcome) => outcome == Err(CascadeDepth) ==> MAX_CASCADE_DEPTH <= |s.log|
  }

  ghost predicate Inv(cfg: Config, sys: Sys) {
    && SharedOk(cfg, sys.shared)
    && forall w :: w in sys.workers ==> WorkerOk(cfg, sys.shared, sys.workers[w])
  }

  /** What any step may do to the store, seen by the other workers: the log and the error key only grow. */
  ghost predicate Grows(s: Shared, s': Shared) {
    && |s.log| <= |s'.log|
    && s'.log[..|s.log|] == s.log
    && ("error" in s.task.stateData ==> "error" in s'.task.stateData)
  }

  lemma StateAtStable(cfg: Config, log: seq<Committed>, log': seq<Committed>, v: nat)
    requires v <= |log| <= |log'| && log'[..|log|] == log
    ensures StateAt(cfg, log', v) == StateAt(cfg, log, v)
  {
  }

  lemma SnapStable(cfg: Config, s: Shared, s': Shared, snap: Task)
    requires SnapOk(cfg, s, snap) && Grows(s, s')
    ensures SnapOk(cfg, s', snap)
  {
  }

  /** The others' steps never invalidate what a worker relies on. */
  lemma WorkerStable(cfg: Config, s: Shared, s': Shared, pc: Pc)
    requires WorkerOk(cfg, s, pc) && Grows(s, s')
    ensures WorkerOk(cfg, s', pc)
  {
    match pc {
      case ReadFlow(_, snap) => SnapStable(cfg, s, s', snap);
      case Commit(m) => SnapStable(cfg, s, s', m.snap);
      case Announce(m) => SnapStable(cfg, s, s', m.snap);
      case OnEnter(m, _) => SnapStable(cfg, s, s', m.snap);
      case ScanBranches(snap, _, _, _) => SnapStable(cfg, s, s', snap);
      case Sweep(snap, _, _, _) => SnapStable(cfg, s, s', snap);
      case CheckVersion(snap, _, _) => SnapStable(cfg, s, s', snap);
      case MergeResults(snap, _, _) => SnapStable(cfg, s, s', snap);
      case _ =>
    }
  }

  // ── one step keeps the invariant ──

  lemma MergeKeepsShared(cfg: Config, s: Shared, patch: Fields)
    requires SharedOk(cfg, s)
    ensures SharedOk(cfg, MergeData(cfg, s, patch)) && Grows(s, MergeData(cfg, s, patch))
  {
  }

  lemma CommitKeepsShared(cfg: Config, s: Shared, w: WorkerId, m: Move)
    requires SharedOk(cfg, s) && MoveOk(cfg, s, m) && m.snap.version == s.task.version
    ensures SharedOk(cfg, CommitMove(cfg, s, w, m)) && Grows(s, CommitMove(cfg, s, w, m))
  {
    var s' := CommitMove(cfg, s, w, m);
    assert s'.log[..|s.log|] == s.log;
    forall i | 0 <= i < |s'.log| ensures CommitOk(cfg, s'.log, i) {
      StateAtStable(cfg, s.log, s'.log, i);
      if i < |s.log| {
        assert s'.log[i] == s.log[i] && CommitOk(cfg, s.log, i);
      }
    }
  }

  lemma AfterReadOk(cfg: Config, s: Shared, i: nat)
    requires SharedOk(cfg, s) && i < MAX_CASCADE_DEPTH && i <= |s.log|
    ensures WorkerOk(cfg, s, AfterRead(cfg, i, s.task))
  {
  }

  lemma AfterFlowReadOk(cfg: Config, s: Shared, i: nat, snap: Task, flow: FlowState, now: int)
    requires Registered(cfg) && WorkerOk(cfg, s, ReadFlow(i, snap))
    ensures WorkerOk(cfg, s, AfterFlowRead(cfg, i, snap, flow, now))
  {
    var ts := StateOf(cfg, snap).transitions;
    var facts := FactsOf(cfg, snap, flow, now);
    DecideFirst(ts, facts);
    var d := Decide(ts, 0, facts);
    if d.Take? {
      assert StateOk(cfg.def, snap.currentState);
      assert FirstFiring(ts, d.index, facts);
    }
  }

  /** The error policy either ends the worker, retries, or falls back; a fallback that can still commit comes
      from a commit the store lost. */
  lemma AfterFailureOk(cfg: Config, s: Shared, m: Move, e: EngineError, lost: bool)
    requires MoveOk(cfg, s, m) && e != CascadeDepth
    requires lost ==> !cfg.reliable
    requires !lost ==> m.snap.version < |s.log|
    ensures WorkerOk(cfg, s, AfterFailure(cfg, m, e, lost))
  {
  }

  lemma AfterTransitionOk(cfg: Config, s: Shared, m: Move)
    requires MoveOk(cfg, s, m) && m.snap.version < |s.log|
    ensures WorkerOk(cfg, s, AfterTransition(m))
  {
  }

  lemma OnEnterKeeps(cfg: Config, s: Shared, m: Move, k: nat, c: Choice)
    requires SharedOk(cfg, s) && WorkerOk(cfg, s, OnEnter(m, k))
    ensures var (s', pc') := StepOnEnter(cfg, s, m, k, c);
            SharedOk(cfg, s') && Grows(s, s') && WorkerOk(cfg, s', pc')
  {
    var actions := if m.target in cfg.def.states then cfg.def.states[m.target].onEnter.GetOr([]) else [];
    if k >= |actions| {
      AfterTransitionOk(cfg, s, m);
    } else {
      match actions[k] {
        case PublishEvent(_) => AfterFailureOk(cfg, s, m, BusFault, false);
        case SetVariable(key, value) =>
          MergeKeepsShared(cfg, s, map[key := value]);
          WorkerStable(cfg, s, MergeData(cfg, s, map[key := value]), OnEnter(m, k + 1));
          AfterFailureOk(cfg, s, m, StoreFault, false);
        case Log(_) =>
      }
    }
  }

  lemma FlagAfterFinish(ids: seq<TaskId>, id: TaskId, anyFailed: bool, results: Results, output: Json)
    requires FlagOk(ids, anyFailed, results) && (Distinct(ids) ==> id !in results)
    ensures FlagOk(ids, anyFailed, results[id := Finished(output)])
  {
    if anyFailed && Distinct(ids) {
      var bad :| bad in results && !results[bad].Finished?;
      assert results[id := Finished(output)][bad] == results[bad];
    }
  }

  lemma FlagAfterFailure(ids: seq<TaskId>, id: TaskId, results: Results, error: string)
    ensures FlagOk(ids, true, results[id := BranchError(error)])
  {
    assert !results[id := BranchError(error)][id].Finished?;
  }

  lemma ScanOneOk(ids: seq<TaskId>, k: nat, branch: Option<BranchTask>, scan: Scan)
    requires k < |ids| && ScanOk(ids, k, scan)
    ensures ScanOk(ids, k + 1, ScanOne(ids[k], branch, scan))
  {
    assert ids[..k + 1] == ids[..k] + [ids[k]];
    assert Distinct(ids) ==> ids[k] !in ids[..k];
    if branch.Some? && branch.value.status.Completed? {
      FlagAfterFinish(ids, ids[k], scan.anyFailed, scan.results, ScanOne(ids[k], branch, scan).results[ids[k]].output);
    } else if branch.Some? && branch.value.status.Failed? {
      FlagAfterFailure(ids, ids[k], scan.results, branch.value.status.error);
    }
  }

  lemma AfterSweepOk(cfg: Config, s: Shared, snap: Task, ids: seq<TaskId>, scan: Scan)
    requires SnapOk(cfg, s, snap) && BranchesRead(cfg, snap, ids)
    requires IdsIn(scan.results, ids) && FlagOk(ids, scan.anyFailed, scan.results)
    requires scan.allCompleted && !scan.anyFailed ==> Covers(scan.results, ids, |ids|)
    ensures WorkerOk(cfg, s, AfterSweep(cfg, snap, scan))
  {
  }

  /** The scan has seen every branch when it reached the end, or it saw a failure and stopped. */
  lemma AfterScanOk(cfg: Config, s: Shared, snap: Task, ids: seq<TaskId>, k: nat, scan: Scan, now: int)
    requires SnapOk(cfg, s, snap) && BranchesRead(cfg, snap, ids) && ScanOk(ids, k, scan)
    requires k == |ids| || scan.anyFailed
    ensures WorkerOk(cfg, s, AfterScan(cfg, snap, ids, scan, now))
  {
    assert IdsIn(scan.results, ids);
    if scan.allCompleted || !TimedOut(StateOf(cfg, snap), snap, now) {
      AfterSweepOk(cfg, s, snap, ids, scan);
    }
  }

  lemma SweepStepOk(cfg: Config, s: Shared, snap: Task, ids: seq<TaskId>, k: nat, scan: Scan)
    requires WorkerOk(cfg, s, Sweep(snap, ids, k, scan)) && k < |ids|
    ensures ids[k] in scan.results ==> WorkerOk(cfg, s, Sweep(snap, ids, k + 1, scan))
    ensures WorkerOk(cfg, s, Sweep(snap, ids, k + 1, SweepScan(ids[k], scan)))
  {
    hide SnapOk, FlagOk;
    FlagAfterFailure(ids, ids[k], scan.results, TIMEOUT_MESSAGE);
  }

  lemma ScanStepKeeps(cfg: Config, s: Shared, snap: Task, ids: seq<TaskId>, k: nat, scan: Scan, c: Choice)
    requires WorkerOk(cfg, s, ScanBranches(snap, ids, k, scan))
    ensures var (s', pc') := StepParallel(cfg, s, ScanBranches(snap, ids, k, scan), c);
            s' == s && WorkerOk(cfg, s, pc')
  {
    if k == |ids| {
      AfterScanOk(cfg, s, snap, ids, k, scan, c.now);
    } else {
      var branch := if ids[k] in s.branches then Some(s.branches[ids[k]]) else None;
      ScanOneOk(ids, k, branch, scan);
      if StopsScan(StrategyOf(StateOf(cfg, snap)), branch) {
        AfterScanOk(cfg, s, snap, ids, k + 1, ScanOne(ids[k], branch, scan), c.now);
      }
    }
  }

  lemma BranchUpdateKeeps(cfg: Config, s: Shared, branches: map<TaskId, BranchTask>)
    requires SharedOk(cfg, s)
    ensures SharedOk(cfg, s.(branches := branches)) && Grows(s, s.(branches := branches))
  {
  }

  lemma SweepKeeps(cfg: Config, s: Shared, snap: Task, ids: seq<TaskId>, k: nat, scan: Scan, c: Choice)
    requires SharedOk(cfg, s) && WorkerOk(cfg, s, Sweep(snap, ids, k, scan))
    ensures var (s', pc') := StepParallel(cfg, s, Sweep(snap, ids, k, scan), c);
            SharedOk(cfg, s') && Grows(s, s') && WorkerOk(cfg, s', pc')
  {
    hide SharedOk, FlagOk, SnapOk, SweepScan, AfterSweep, Covers;
    var (s', pc') := StepParallel(cfg, s, Sweep(snap, ids, k, scan), c);
    GrowsSelf(s);
    BranchUpdateKeeps(cfg, s, s'.branches);
    if k == |ids| {
      AfterSweepOk(cfg, s, snap, ids, scan.(allCompleted := true));
    } else {
      SweepStepOk(cfg, s, snap, ids, k, scan);
      if pc'.Sweep? {
        WorkerStable(cfg, s, s', pc');
      }
    }
  }

  lemma JoinMoveOk(cfg: Config, s: Shared, snap: Task, results: Results, failed: bool)
    requires Registered(cfg) && SnapOk(cfg, s, snap) && JoinOk(cfg, snap, results, failed)
    ensures var ts := StateOf(cfg, snap).transitions;
            FirstAuto(ts, 0).Some? ==> MoveOk(cfg, s, Move(snap, ts[FirstAuto(ts, 0).value].to, Joined(results, failed)))
  {
    assert StateOk(cfg.def, snap.currentState);
  }

  lemma MergeResultsKeeps(cfg: Config, s: Shared, snap: Task, results: Results, failed: bool, c: Choice)
    requires Registered(cfg) && SharedOk(cfg, s) && WorkerOk(cfg, s, MergeResults(snap, results, failed))
    ensures var (s', pc') := StepParallel(cfg, s, MergeResults(snap, results, failed), c);
            SharedOk(cfg, s') && Grows(s, s') && WorkerOk(cfg, s', pc')
  {
    hide SharedOk, JoinOk, MergeData, Justified, ResultsPatch;
    if c.ok {
      var s' := MergeData(cfg, s, ResultsPatch(results, failed));
      MergeKeepsShared(cfg, s, ResultsPatch(results, failed));
      SnapStable(cfg, s, s', snap);
      JoinMoveOk(cfg, s', snap, results, failed);
    } else {
      GrowsSelf(s);
    }
  }

  lemma GrowsSelf(s: Shared)
    ensures Grows(s, s)
  {
  }

  lemma SpawnKeeps(cfg: Config, s: Shared, snap: Task, ids: seq<TaskId>, c: Choice)
    requires SharedOk(cfg, s) && AtParallel(cfg, snap)
    ensures var (s', pc') := StepParallel(cfg, s, Spawn(snap, ids), c);
            SharedOk(cfg, s') && Grows(s, s') && WorkerOk(cfg, s', pc')
  {
  }

  lemma RecordKeeps(cfg: Config, s: Shared, snap: Task, ids: seq<TaskId>, c: Choice)
    requires SharedOk(cfg, s) && AtParallel(cfg, snap)
    ensures var (s', pc') := StepParallel(cfg, s, RecordBranches(snap, ids), c);
            SharedOk(cfg, s') && Grows(s, s') && WorkerOk(cfg, s', pc')
  {
    hide SharedOk;
    MergeKeepsShared(cfg, s, RecordPatch(StrategyOf(StateOf(cfg, snap)), ids, c.now));
  }

  lemma ParallelKeeps(cfg: Config, s: Shared, pc: Pc, c: Choice)
    requires Registered(cfg) && SharedOk(cfg, s) && WorkerOk(cfg, s, pc)
    requires !pc.Commit? && !pc.Done? && !pc.ReadTask? && !pc.ReadForced? && !pc.ReadFlow?
    requires !pc.Announce? && !pc.OnEnter? && !pc.SaveRetry? && !pc.AnnounceRetry?
    ensures var (s', pc') := StepParallel(cfg, s, pc, c);
            SharedOk(cfg, s') && Grows(s, s') && WorkerOk(cfg, s', pc')
  {
    hide SharedOk, ScanOk, JoinOk, FlagOk, Covers, Justified, AfterScan, AfterSweep, ScanOne, MergeData;
    GrowsSelf(s);
    match pc {
      case Spawn(snap, ids) => SpawnKeeps(cfg, s, snap, ids, c);
      case AnnounceBranch(_, _) =>
      case RecordBranches(snap, ids) => RecordKeeps(cfg, s, snap, ids, c);
      case ScanBranches(snap, ids, k, scan) => ScanStepKeeps(cfg, s, snap, ids, k, scan, c);
      case Sweep(snap, ids, k, scan) => SweepKeeps(cfg, s, snap, ids, k, scan, c);
      case CheckVersion(_, _, _) =>
      case MergeResults(snap, results, failed) => MergeResultsKeeps(cfg, s, snap, results, failed, c);
    }
  }

  lemma CommitKeeps(cfg: Config, s: Shared, w: WorkerId, m: Move, c: Choice)
    requires SharedOk(cfg, s) && WorkerOk(cfg, s, Commit(m))
    ensures var (s', pc') := Step(cfg, s, w, Commit(m), c);
            SharedOk(cfg, s') && Grows(s, s') && WorkerOk(cfg, s', pc')
  {
    if s.task.version != m.snap.version {
      AfterFailureOk(cfg, s, m, Conflict, false);
    } else if !c.ok && !cfg.reliable {
      AfterFailureOk(cfg, s, m, StoreFault, true);
    } else {
      CommitKeepsShared(cfg, s, w, m);
      SnapStable(cfg, s, CommitMove(cfg, s, w, m), m.snap);
    }
  }

  lemma ReadForcedOk(cfg: Config, s: Shared, target: StateName)
    requires SharedOk(cfg, s) && target in cfg.def.states
    ensures WorkerOk(cfg, s, Commit(Move(s.task, target, Forced)))
  {
  }

  lemma SaveRetryKeeps(cfg: Config, s: Shared, flow: FlowState)
    requires SharedOk(cfg, s)
    ensures SharedOk(cfg, s.(flow := flow)) && Grows(s, s.(flow := flow))
  {
  }

  lemma ReadKeeps(cfg: Config, s: Shared, w: WorkerId, pc: Pc, c: Choice)
    requires Registered(cfg) && SharedOk(cfg, s) && WorkerOk(cfg, s, pc)
    requires pc.ReadTask? || pc.ReadForced? || pc.ReadFlow?
    ensures var (s', pc') := Step(cfg, s, w, pc, c);
            SharedOk(cfg, s') && Grows(s, s') && WorkerOk(cfg, s', pc')
  {
    hide SharedOk, Justified, AfterRead, AfterFlowRead;
    GrowsSelf(s);
    match pc {
      case ReadTask(i) => AfterReadOk(cfg, s, i);
      case ReadForced(target) => if target in cfg.def.states { ReadForcedOk(cfg, s, target); }
      case ReadFlow(i, snap) => AfterFlowReadOk(cfg, s, i, snap, s.flow, c.now);
    }
  }

  lemma PublishKeeps(cfg: Config, s: Shared, w: WorkerId, pc: Pc, c: Choice)
    requires SharedOk(cfg, s) && WorkerOk(cfg, s, pc)
    requires pc.Announce? || pc.SaveRetry? || pc.AnnounceRetry? || pc.Done?
    ensures var (s', pc') := Step(cfg, s, w, pc, c);
            SharedOk(cfg, s') && Grows(s, s') && WorkerOk(cfg, s', pc')
  {
    hide SharedOk, Justified, AfterFailure;
    GrowsSelf(s);
    match pc {
      case Announce(m) => AfterFailureOk(cfg, s, m, BusFault, false);
      case SaveRetry(_, flow) => SaveRetryKeeps(cfg, s, flow);
      case AnnounceRetry =>
      case Done(_) =>
    }
  }

  /** One step of any worker keeps the store consistent and the worker's own facts true. */
  lemma StepKeeps(cfg: Config, s: Shared, w: WorkerId, pc: Pc, c: Choice)
    requires Registered(cfg) && SharedOk(cfg, s) && WorkerOk(cfg, s, pc)
    ensures var (s', pc') := Step(cfg, s, w, pc, c);
            SharedOk(cfg, s') && Grows(s, s') && WorkerOk(cfg, s', pc')
  {
    hide SharedOk, Grows, WorkerOk;
    if pc.ReadTask? || pc.ReadForced? || pc.ReadFlow? {
      ReadKeeps(cfg, s, w, pc, c);
    } else if pc.Announce? || pc.SaveRetry? || pc.AnnounceRetry? || pc.Done? {
      PublishKeeps(cfg, s, w, pc, c);
    } else if pc.Commit? {
      CommitKeeps(cfg, s, w, pc.move, c);
    } else if pc.OnEnter? {
      OnEnterKeeps(cfg, s, pc.move, pc.next, c);
    } else {
      ParallelKeeps(cfg, s, pc, c);
    }
  }

  lemma EnvironmentKeeps(cfg: Config, sys: Sys, a: Action)
    requires SharedOk(cfg, sys.shared) && !a.Act?
    ensures SharedOk(cfg, Apply(cfg, sys, a).shared) && Grows(sys.shared, Apply(cfg, sys, a).shared)
  {
    if a.AgentMerge? {
      MergeKeepsShared(cfg, sys.shared, a.patch);
    }
  }

  lemma ApplyKeeps(cfg: Config, sys: Sys, a: Action)
    requires Registered(cfg) && Inv(cfg, sys)
    ensures Inv(cfg, Apply(cfg, sys, a)) && Grows(sys.shared, Apply(cfg, sys, a).shared)
  {
    hide SharedOk, Step, MergeData;
    var s, sys' := sys.shared, Apply(cfg, sys, a);
    GrowsSelf(s);
    if a.Act? && a.w in sys.workers {
      StepKeeps(cfg, s, a.w, sys.workers[a.w], a.choice);
    } else if !a.Act? {
      EnvironmentKeeps(cfg, sys, a);
    }
    forall w | w in sys'.workers ensures WorkerOk(cfg, sys'.shared, sys'.workers[w]) {
      if w in sys.workers && sys'.workers[w] == sys.workers[w] {
        WorkerStable(cfg, s, sys'.shared, sys.workers[w]);
      }
    }
  }

  lemma {:induction false} RunKeeps(cfg: Config, sys: Sys, actions: seq<Action>)
    requires Registered(cfg) && Inv(cfg, sys)
    ensures Inv(cfg, Run(cfg, sys, actions)) && Grows(sys.shared, Run(cfg, sys, actions).shared)
    decreases |actions|
  {
    if actions != [] {
      var n := |actions| - 1;
      RunKeeps(cfg, sys, actions[..n]);
      ApplyKeeps(cfg, Run(cfg, sys, actions[..n]), actions[n]);
    }
  }

  lemma InitOk(cfg: Config)
    requires Registered(cfg)
    ensures Inv(cfg, Init(cfg))
  {
  }
}
