/**
 The flow engine as a machine of workers over one task. Every step of a worker is one awaited operation of
 `advance_by_id` or `force_transition`: a read, a commit, a publish, a merge. Between two steps of a worker any
 other worker, an agent, a branch or an administrator may act.
 */
module FlowEngine {
  import opened Wrappers
  import opened JsonValues
  import opened Condition
  import opened Flow

  const MAX_CASCADE_DEPTH: nat := 100

  /** What stays fixed during a run: the registered definition, the tools and the store behind the engine.
      A `reliable` store refuses a commit only because of the version. */
  datatype Config = Config(
    def: FlowDef,
    tools: map<string, RiskLevel>,
    backend: Backend,
    reliable: bool,
    isUuid: string -> bool)

  datatype EngineError = Conflict | StoreFault | BusFault | BadCondition(e: CondError)
                       | UnknownState | UnknownTarget | CascadeDepth | BadBranchId | MissingTask

  type Outcome = Result<(), EngineError>

  // ── choosing a transition ──

  function FactsOf(cfg: Config, snap: Task, flow: FlowState, now: int): Facts {
    Facts(snap.stateData, flow.pendingApproval, now, cfg.tools)
  }

  datatype Decision = Take(index: nat) | Stay | Broken(e: CondError)

  /** Whether a transition fires on what the worker read. */
  function Fires(t: TransitionDef, facts: Facts): Result<bool, CondError> {
    if t.IsAuto() then Ok(true)
    else if t.condition.Some? then Evaluate(t.condition.value, facts)
    else Ok(false)
  }

  /** The scan over the listed transitions, from position `i` on. */
  function Decide(ts: seq<TransitionDef>, i: nat, facts: Facts): (d: Decision)
    ensures d.Take? ==> i <= d.index < |ts|
    decreases |ts| - i
  {
    if i >= |ts| then Stay
    else
      match Fires(ts[i], facts)
      case Err(e) => Broken(e)
      case Ok(true) => Take(i)
      case Ok(false) => Decide(ts, i + 1, facts)
  }

  /** The transition at `k` is the first listed one that is automatic or whose condition is true. */
  ghost predicate FirstFiring(ts: seq<TransitionDef>, k: nat, facts: Facts) {
    && k < |ts|
    && (ts[k].IsAuto() || (ts[k].condition.Some? && Evaluate(ts[k].condition.value, facts) == Ok(true)))
    && forall j :: 0 <= j < k ==>
         !ts[j].IsAuto() && (ts[j].condition.Some? ==> Evaluate(ts[j].condition.value, facts) == Ok(false))
  }

  ghost predicate FiresFirst(ts: seq<TransitionDef>, k: nat, facts: Facts) {
    k < |ts| && Fires(ts[k], facts) == Ok(true) && forall j :: 0 <= j < k ==> Fires(ts[j], facts) == Ok(false)
  }

  lemma {:induction false} DecideScan(ts: seq<TransitionDef>, i: nat, facts: Facts)
    requires i <= |ts| && forall j :: 0 <= j < i ==> Fires(ts[j], facts) == Ok(false)
    ensures forall k: nat :: Decide(ts, i, facts) == Take(k) <==> FiresFirst(ts, k, facts)
    ensures Decide(ts, i, facts) == Stay <==> forall j :: 0 <= j < |ts| ==> Fires(ts[j], facts) == Ok(false)
    decreases |ts| - i
  {
    if i < |ts| && Fires(ts[i], facts) == Ok(false) {
      DecideScan(ts, i + 1, facts);
    }
  }

  /** The scan stops at the first transition that fires, and stays exactly when none does. */
  lemma DecideFirst(ts: seq<TransitionDef>, facts: Facts)
    ensures forall k: nat :: Decide(ts, 0, facts) == Take(k) <==> FirstFiring(ts, k, facts)
    ensures Decide(ts, 0, facts) == Stay <==> forall j :: 0 <= j < |ts| ==> Fires(ts[j], facts) == Ok(false)
  {
    DecideScan(ts, 0, facts);
    assert forall k: nat :: FirstFiring(ts, k, facts) <==> FiresFirst(ts, k, facts);
  }

  function FirstAuto(ts: seq<TransitionDef>, i: nat): (r: Option<nat>)
    ensures r.Some? ==> i <= r.value < |ts| && ts[r.value].IsAuto() && forall j :: i <= j < r.value ==> !ts[j].IsAuto()
    ensures r.None? ==> forall j :: i <= j < |ts| ==> !ts[j].IsAuto()
    decreases |ts| - i
  {
    if i >= |ts| then None else if ts[i].IsAuto() then Some(i) else FirstAuto(ts, i + 1)
  }

  /** The status a transition to `target` writes, computed from the snapshot the worker holds. */
  function StatusFor(def: FlowDef, snap: Task, target: StateName): TaskStatus {
    if target !in def.states then Running
    else
      match def.states[target].stateType
      case End =>
        if "error" in snap.stateData then
          Failed(AsStr(Lookup(snap.stateData, "error")).GetOr("flow reached failure state"))
        else Completed
      case Gate => WaitingApproval
      case _ => Running
  }

  // ── moves and program counters ──

  /** A branch's entry in `_parallel_results`. */
  datatype BranchResult = Finished(output: Json) | BranchError(error: string)

  type Results = map<TaskId, BranchResult>

  /** Why a worker tries to move the task. `lost` marks a fallback after a commit that the store lost although
      the version matched. */
  datatype Cause =
    | Matched(iteration: nat, flow: FlowState, index: nat, now: int)
    | Fallback(flow: FlowState, lost: bool)
    | Forced
    | Joined(results: Results, failed: bool)

  /** A transition a worker attempts: the task as it was read, where to go and why. */
  datatype Move = Move(snap: Task, target: StateName, cause: Cause)

  /** How far a scan over the recorded branches has got. */
  datatype Scan = Scan(allCompleted: bool, anyFailed: bool, results: Results)

  datatype Pc =
    | ReadTask(iteration: nat)
    | ReadForced(target: StateName)
    | ReadFlow(iteration: nat, snap: Task)
    | Commit(move: Move)
    | Announce(move: Move)
    | OnEnter(move: Move, next: nat)
    | SaveRetry(snap: Task, flow: FlowState)
    | AnnounceRetry
    | Spawn(snap: Task, ids: seq<TaskId>)
    | AnnounceBranch(snap: Task, ids: seq<TaskId>)
    | RecordBranches(snap: Task, ids: seq<TaskId>)
    | ScanBranches(snap: Task, ids: seq<TaskId>, next: nat, scan: Scan)
    | Sweep(snap: Task, ids: seq<TaskId>, next: nat, scan: Scan)
    | CheckVersion(snap: Task, results: Results, failed: bool)
    | MergeResults(snap: Task, results: Results, failed: bool)
    | Done(outcome: Outcome)

  type WorkerId = nat

  /** A commit the store accepted, by whom. */
  datatype Committed = Committed(worker: WorkerId, move: Move)

  /** What the store holds for the task, with the log of accepted commits. */
  datatype Shared = Shared(task: Task, flow: FlowState, branches: map<TaskId, BranchTask>, log: seq<Committed>)

  /** How the awaited operation turns out: whether it succeeds, the clock, and a new identifier. */
  datatype Choice = Choice(ok: bool, now: int, id: TaskId)

  // ── the store's operations ──

  /** `advance_task` on a matching version: task, flow state and log move together, the version by one. */
  function CommitMove(cfg: Config, s: Shared, w: WorkerId, m: Move): Shared {
    s.(task := s.task.(currentState := m.target,
                       status := StatusFor(cfg.def, m.snap, m.target),
                       version := m.snap.version + 1),
       flow := s.flow.(currentState := m.target,
                       history := s.flow.history + [(m.snap.currentState, m.target)]),
       log := s.log + [Committed(w, m)])
  }

  /** `merge_task_state_data` leaves the version alone. */
  function MergeData(cfg: Config, s: Shared, patch: Fields): Shared {
    s.(task := s.task.(stateData := StoreMerge(cfg.backend, s.task.stateData, patch)))
  }

  // ── one step of a worker ──

  function StateOf(cfg: Config, snap: Task): StateDef
    requires snap.currentState in cfg.def.states
  {
    cfg.def.states[snap.currentState]
  }

  predicate Ordinary(cfg: Config, snap: Task) {
    && snap.currentState in cfg.def.states
    && !StateOf(cfg, snap).stateType.End?
    && !StateOf(cfg, snap).stateType.Parallel?
  }

  predicate AtParallel(cfg: Config, snap: Task) {
    cfg.def.HasType(snap.currentState, Parallel)
  }

  function StrategyOf(state: StateDef): JoinStrategy {
    state.joinStrategy.GetOr(All)
  }

  function ItemTexts(items: seq<Json>): Option<seq<string>> {
    if items == [] then Some([])
    else if !items[0].Str? then None
    else
      match ItemTexts(items[1..])
      case None => None
      case Some(rest) => Some([items[0].s] + rest)
  }

  /** The branch tasks recorded under `_parallel.branch_tasks`; anything malformed reads as none. */
  function Recorded(data: Fields): seq<TaskId> {
    if "_parallel" in data && data["_parallel"].Obj? then
      match AsItems(Lookup(data["_parallel"].fields, "branch_tasks"))
      case None => []
      case Some(items) => ItemTexts(items).GetOr([])
    else []
  }

  function SpawnedAt(data: Fields): Option<int> {
    if "_parallel" in data && data["_parallel"].Obj? && "spawned_at" in data["_parallel"].fields
       && data["_parallel"].fields["spawned_at"].Num?
    then Some(data["_parallel"].fields["spawned_at"].n)
    else None
  }

  function BranchInput(snap: Task, branch: BranchDef): Json {
    match branch.inputMapping
    case None => Obj(snap.stateData)
    case Some(mapping) =>
      Obj(map k | k in mapping && mapping[k] in snap.stateData :: snap.stateData[mapping[k]])
  }

  function StrategyName(strategy: JoinStrategy): string {
    match strategy case All => "all" case FailFast => "fail_fast"
  }

  function RecordPatch(strategy: JoinStrategy, ids: seq<TaskId>, now: int): Fields {
    map["_parallel" := Obj(map[
      "branch_tasks" := Arr(seq(|ids|, i requires 0 <= i < |ids| => Str(ids[i]))),
      "join_strategy" := Str(StrategyName(strategy)),
      "spawned_at" := Num(now)])]
  }

  function ResultJson(r: BranchResult): Json {
    match r
    case Finished(output) => output
    case BranchError(error) => Obj(map["error" := Str(error)])
  }

  function ResultsPatch(results: Results, failed: bool): Fields {
    var base := map["_parallel_results" := Obj(map id | id in results :: ResultJson(results[id]))];
    if failed then base["error" := Str("parallel branch failed (fail_fast)")] else base
  }

  /** Where a worker goes after loading the task at the head of the loop. */
  function AfterRead(cfg: Config, iteration: nat, snap: Task): Pc {
    if snap.currentState !in cfg.def.states then Done(Err(UnknownState))
    else if StateOf(cfg, snap).stateType.End? then Done(Ok(()))
    else if StateOf(cfg, snap).stateType.Parallel? then AfterParallelRead(cfg, snap)
    else ReadFlow(iteration, snap)
  }

  function AfterParallelRead(cfg: Config, snap: Task): Pc
    requires AtParallel(cfg, snap)
  {
    if StateOf(cfg, snap).branches.GetOr([]) == [] then Done(Ok(()))
    else if Recorded(snap.stateData) == [] then Spawn(snap, [])
    else ScanBranches(snap, Recorded(snap.stateData), 0, Scan(true, false, map[]))
  }

  function AfterFlowRead(cfg: Config, iteration: nat, snap: Task, flow: FlowState, now: int): Pc
    requires Ordinary(cfg, snap)
  {
    var ts := StateOf(cfg, snap).transitions;
    match Decide(ts, 0, FactsOf(cfg, snap, flow, now))
    case Broken(e) => Done(Err(BadCondition(e)))
    case Stay => Done(Ok(()))
    case Take(k) => Commit(Move(snap, ts[k].to, Matched(iteration, flow, k, now)))
  }

  /** A failed transition: only ordinary moves consult the error policy. */
  function AfterFailure(cfg: Config, m: Move, e: EngineError, lost: bool): Pc {
    if !m.cause.Matched? then Done(Err(e))
    else if cfg.def.onError.None? then Done(Err(e))
    else
      var policy, flow := cfg.def.onError.value, m.cause.flow;
      if m.snap.currentState !in policy.retryStates then Done(Err(e))
      else if flow.retryCount < policy.maxRetries then
        SaveRetry(m.snap, flow.(retryCount := flow.retryCount + 1))
      else if policy.fallback !in cfg.def.states then Done(Err(UnknownTarget))
      else Commit(Move(m.snap, policy.fallback, Fallback(flow, lost)))
  }

  function AfterTransition(m: Move): Pc {
    if !m.cause.Matched? then Done(Ok(()))
    else if m.cause.iteration + 1 >= MAX_CASCADE_DEPTH then Done(Err(CascadeDepth))
    else ReadTask(m.cause.iteration + 1)
  }

  function ScanOne(id: TaskId, branch: Option<BranchTask>, scan: Scan): Scan {
    if branch.None? then scan.(allCompleted := false)
    else
      match branch.value.status
      case Completed =>
        scan.(results := scan.results[id := Finished(branch.value.output.GetOr(Obj(map["_no_output" := Bool(true)])))])
      case Failed(error) => scan.(anyFailed := true, results := scan.results[id := BranchError(error)])
      case _ => scan.(allCompleted := false)
  }

  predicate StopsScan(strategy: JoinStrategy, branch: Option<BranchTask>) {
    strategy.FailFast? && branch.Some? && branch.value.status.Failed?
  }

  predicate TimedOut(state: StateDef, snap: Task, now: int) {
    && state.timeoutSecs.Some?
    && SpawnedAt(snap.stateData).Some?
    && now - SpawnedAt(snap.stateData).value >= state.timeoutSecs.value
  }

  /** What follows the scan: the timeout sweep, or the join. */
  function AfterScan(cfg: Config, snap: Task, ids: seq<TaskId>, scan: Scan, now: int): Pc
    requires AtParallel(cfg, snap)
  {
    if !scan.allCompleted && TimedOut(StateOf(cfg, snap), snap, now) then Sweep(snap, ids, 0, scan)
    else AfterSweep(cfg, snap, scan)
  }

  function AfterSweep(cfg: Config, snap: Task, scan: Scan): Pc
    requires AtParallel(cfg, snap)
  {
    if scan.anyFailed && StrategyOf(StateOf(cfg, snap)).FailFast? then CheckVersion(snap, scan.results, true)
    else if scan.allCompleted && !scan.anyFailed then CheckVersion(snap, scan.results, false)
    else Done(Ok(()))
  }

  const TIMEOUT_MESSAGE := "parallel branch timed out"

  /** The sweep gives an unscanned or unfinished branch up. */
  function SweepScan(id: TaskId, scan: Scan): Scan {
    scan.(anyFailed := true, results := scan.results[id := BranchError(TIMEOUT_MESSAGE)])
  }

  /** One awaited operation of a worker: its effect on the store and where the worker goes next. */
  function Step(cfg: Config, s: Shared, w: WorkerId, pc: Pc, c: Choice): (Shared, Pc) {
    match pc
    case ReadTask(i) =>
      (s, if c.ok then AfterRead(cfg, i, s.task) else Done(Err(StoreFault)))
    case ReadForced(target) =>
      (s, if !c.ok then Done(Err(StoreFault))
          else if target !in cfg.def.states then Done(Err(UnknownTarget))
          else Commit(Move(s.task, target, Forced)))
    case ReadFlow(i, snap) =>
      (s, if c.ok && Ordinary(cfg, snap) then AfterFlowRead(cfg, i, snap, s.flow, c.now) else Done(Err(StoreFault)))
    case Commit(m) =>
      if s.task.version != m.snap.version then (s, AfterFailure(cfg, m, Conflict, false))
      else if !c.ok && !cfg.reliable then (s, AfterFailure(cfg, m, StoreFault, true))
      else (CommitMove(cfg, s, w, m), Announce(m))
    case Announce(m) =>
      (s, if c.ok then OnEnter(m, 0) else AfterFailure(cfg, m, BusFault, false))
    case OnEnter(m, k) => StepOnEnter(cfg, s, m, k, c)
    case SaveRetry(snap, flow) =>
      if c.ok then (s.(flow := flow), AnnounceRetry) else (s, Done(Err(StoreFault)))
    case AnnounceRetry => (s, Done(if c.ok then Ok(()) else Err(BusFault)))
    case Done(_) => (s, pc)
    case _ => StepParallel(cfg, s, pc, c)
  }

  function StepOnEnter(cfg: Config, s: Shared, m: Move, k: nat, c: Choice): (Shared, Pc) {
    var actions := if m.target in cfg.def.states then cfg.def.states[m.target].onEnter.GetOr([]) else [];
    if k >= |actions| then (s, AfterTransition(m))
    else
      match actions[k]
      case PublishEvent(_) => (s, if c.ok then OnEnter(m, k + 1) else AfterFailure(cfg, m, BusFault, false))
      case SetVariable(key, value) =>
        if c.ok then (MergeData(cfg, s, map[key := value]), OnEnter(m, k + 1))
        else (s, AfterFailure(cfg, m, StoreFault, false))
      case Log(_) => (s, OnEnter(m, k + 1))
  }

  function StepParallel(cfg: Config, s: Shared, pc: Pc, c: Choice): (Shared, Pc) {
    match pc
    case Spawn(snap, ids) => StepSpawn(cfg, s, snap, ids, c)
    case AnnounceBranch(snap, ids) => (s, if c.ok then Spawn(snap, ids) else Done(Err(BusFault)))
    case RecordBranches(snap, ids) =>
      if c.ok && AtParallel(cfg, snap)
      then (MergeData(cfg, s, RecordPatch(StrategyOf(StateOf(cfg, snap)), ids, c.now)), Done(Ok(())))
      else (s, Done(Err(StoreFault)))
    case ScanBranches(snap, ids, k, scan) => (s, StepScan(cfg, s, snap, ids, k, scan, c))
    case Sweep(snap, ids, k, scan) => StepSweep(cfg, s, snap, ids, k, scan, c)
    case CheckVersion(snap, results, failed) =>
      (s, if !c.ok then Done(Err(StoreFault))
          else if s.task.version != snap.version then Done(Ok(()))
          else MergeResults(snap, results, failed))
    case MergeResults(snap, results, failed) => StepMergeResults(cfg, s, snap, results, failed, c)
    case _ => (s, pc)
  }

  function StepSpawn(cfg: Config, s: Shared, snap: Task, ids: seq<TaskId>, c: Choice): (Shared, Pc) {
    var branches := if AtParallel(cfg, snap) then StateOf(cfg, snap).branches.GetOr([]) else [];
    if |ids| >= |branches| then (s, RecordBranches(snap, ids))
    else if !c.ok || c.id in s.branches then (s, Done(Err(StoreFault)))
    else
      (s.(branches := s.branches[c.id := BranchTask(BranchInput(snap, branches[|ids|]), Running, None)]),
       AnnounceBranch(snap, ids + [c.id]))
  }

  function StepScan(cfg: Config, s: Shared, snap: Task, ids: seq<TaskId>, k: nat, scan: Scan, c: Choice): Pc {
    if !AtParallel(cfg, snap) then Done(Err(StoreFault))
    else if k >= |ids| then AfterScan(cfg, snap, ids, scan, c.now)
    else if !cfg.isUuid(ids[k]) then Done(Err(BadBranchId))
    else if !c.ok then Done(Err(StoreFault))
    else
      var branch := if ids[k] in s.branches then Some(s.branches[ids[k]]) else None;
      var scan' := ScanOne(ids[k], branch, scan);
      if StopsScan(StrategyOf(StateOf(cfg, snap)), branch) then AfterScan(cfg, snap, ids, scan', c.now)
      else ScanBranches(snap, ids, k + 1, scan')
  }

  function StepSweep(cfg: Config, s: Shared, snap: Task, ids: seq<TaskId>, k: nat, scan: Scan, c: Choice): (Shared, Pc) {
    if !AtParallel(cfg, snap) then (s, Done(Err(StoreFault)))
    else if k >= |ids| then (s, AfterSweep(cfg, snap, scan.(allCompleted := true)))
    else if ids[k] in scan.results then (s, Sweep(snap, ids, k + 1, scan))
    else if !cfg.isUuid(ids[k]) then (s, Done(Err(BadBranchId)))
    else if !c.ok then (s, Done(Err(StoreFault)))
    else if ids[k] !in s.branches then (s, Done(Err(MissingTask)))
    else
      (s.(branches := s.branches[ids[k] := s.branches[ids[k]].(status := Failed(TIMEOUT_MESSAGE))]),
       Sweep(snap, ids, k + 1, SweepScan(ids[k], scan)))
  }

  function StepMergeResults(cfg: Config, s: Shared, snap: Task, results: Results, failed: bool, c: Choice): (Shared, Pc) {
    if !c.ok || !AtParallel(cfg, snap) then (s, Done(Err(StoreFault)))
    else
      var ts := StateOf(cfg, snap).transitions;
      (MergeData(cfg, s, ResultsPatch(results, failed)),
       match FirstAuto(ts, 0)
       case None => Done(Ok(()))
       case Some(k) => Commit(Move(snap, ts[k].to, Joined(results, failed))))
  }

  // ── runs ──

  /** Everything that can happen next. Agents merge data, approvers resolve approvals, branch tasks run on their
      own, and an administrator may force the task or cancel it. */
  datatype Action =
    | Launch(w: WorkerId)
    | LaunchForced(w: WorkerId, target: StateName)
    | Act(w: WorkerId, choice: Choice)
    | AgentMerge(patch: Fields)
    | Approve(approval: Option<Approval>)
    | UpdateBranch(id: TaskId, status: TaskStatus, output: Option<Json>)
    | Cancel

  datatype Sys = Sys(shared: Shared, workers: map<WorkerId, Pc>)

  function Init(cfg: Config): Sys {
    Sys(Shared(Task(cfg.def.initialState, map[], Running, 0), FlowState(cfg.def.initialState, [], None, 0), map[], []),
        map[])
  }

  predicate CanLaunch(sys: Sys, w: WorkerId) {
    w !in sys.workers || sys.workers[w].Done?
  }

  /** An action that is not possible in a state leaves it unchanged. */
  function Apply(cfg: Config, sys: Sys, a: Action): Sys {
    var s := sys.shared;
    match a
    case Launch(w) => if CanLaunch(sys, w) then sys.(workers := sys.workers[w := ReadTask(0)]) else sys
    case LaunchForced(w, target) =>
      if CanLaunch(sys, w) then sys.(workers := sys.workers[w := ReadForced(target)]) else sys
    case Act(w, c) =>
      if w !in sys.workers then sys
      else
        var (s', pc') := Step(cfg, s, w, sys.workers[w], c);
        Sys(s', sys.workers[w := pc'])
    case AgentMerge(patch) => sys.(shared := MergeData(cfg, s, patch))
    case Approve(approval) => sys.(shared := s.(flow := s.flow.(pendingApproval := approval)))
    case UpdateBranch(id, status, output) =>
      if id in s.branches
      then sys.(shared := s.(branches := s.branches[id := s.branches[id].(status := status, output := output)]))
      else sys
    case Cancel => sys.(shared := s.(task := s.task.(status := Cancelled)))
  }

  function Run(cfg: Config, sys: Sys, actions: seq<Action>): Sys
    decreases |actions|
  {
    if actions == [] then sys
    else Apply(cfg, Run(cfg, sys, actions[..|actions| - 1]), actions[|actions| - 1])
  }

  lemma {:induction false} RunAppend(cfg: Config, sys: Sys, first: seq<Action>, second: seq<Action>)
    ensures Run(cfg, sys, first + second) == Run(cfg, Run(cfg, sys, first), second)
    decreases |second|
  {
    if second == [] {
      assert first + second == first;
    } else {
      var n := |second| - 1;
      RunAppend(cfg, sys, first, second[..n]);
      assert (first + second)[..|first| + n] == first + second[..n];
    }
  }

  /** What creating a task guarantees: a registered definition whose initial state is its Start state. */
  predicate Registered(cfg: Config) {
    WellFormed(cfg.def) && cfg.def.HasType(cfg.def.initialState, Start)
  }
}
