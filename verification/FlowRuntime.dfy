/**
 The engine as the program it is: loops, early returns and a store that is updated in place. At every awaited
 operation the rest of the world acts first, as its schedule says. The methods keep `Valid`: what they did is a
 run of the machine in FlowEngine, so everything proved of runs holds of them.
 */
module FlowRuntime {
  import opened Wrappers
  import opened JsonValues
  import opened Condition
  import opened Flow
  import opened FlowEngine
  import opened FlowSafety
  import opened FlowTheorems
  import opened FlowCascade
  import opened FlowFork
  import opened FlowSpawn
  import opened FlowSweep

  /** What happens while the engine awaits: other parties' actions, then the outcome of the operation. */
  datatype Moment = Moment(others: seq<Action>, choice: Choice)

  predicate ActedBy(a: Action, w: WorkerId) {
    match a
    case Launch(v) => v == w
    case LaunchForced(v, _) => v == w
    case Act(v, _) => v == w
    case _ => false
  }

  function With(sys: Sys, w: WorkerId, pc: Option<Pc>): Sys {
    if pc.None? then sys else sys.(workers := sys.workers[w := pc.value])
  }

  /** The others cannot tell where this worker is. */
  lemma OthersIgnore(cfg: Config, sys: Sys, w: WorkerId, pc: Option<Pc>, a: Action)
    requires w !in sys.workers && !ActedBy(a, w)
    ensures Apply(cfg, With(sys, w, pc), a) == With(Apply(cfg, sys, a), w, pc)
    ensures w !in Apply(cfg, sys, a).workers
  {
    hide Step, MergeData;
    if a.Act? && a.w in sys.workers && pc.Some? {
      var r := Step(cfg, sys.shared, a.w, sys.workers[a.w], a.choice);
      assert sys.workers[w := pc.value][a.w := r.1] == sys.workers[a.w := r.1][w := pc.value];
    }
    if (a.Launch? || a.LaunchForced?) && pc.Some? {
      var start := if a.Launch? then ReadTask(0) else ReadForced(a.target);
      assert sys.workers[w := pc.value][a.w := start] == sys.workers[a.w := start][w := pc.value];
    }
  }

  /** How `advance_by_id` returns after the error policy was asked about `e`. */
  function PolicyOutcome(r: Result<bool, EngineError>, e: EngineError): Outcome {
    match r
    case Ok(true) => Ok(())
    case Ok(false) => Err(e)
    case Err(e') => Err(e')
  }

  // ── what an undisturbed check does to the branches ──

  /** The scan's results are the finished branches among the first `k` recorded ones. */
  ghost predicate Collected(branches: map<TaskId, BranchTask>, ids: seq<TaskId>, k: nat, scan: Scan)
    requires k <= |ids|
  {
    forall id :: id in scan.results <==> id in ids[..k] && Concluded(branches, id)
  }

  lemma CollectedOne(branches: map<TaskId, BranchTask>, ids: seq<TaskId>, k: nat, scan: Scan)
    requires k < |ids| && Collected(branches, ids, k, scan)
    ensures Collected(branches, ids, k + 1,
                      ScanOne(ids[k], if ids[k] in branches then Some(branches[ids[k]]) else None, scan))
  {
  }

  /** Every one of these branches has completed. */
  ghost predicate AllDone(branches: map<TaskId, BranchTask>, ids: seq<TaskId>) {
    forall i :: 0 <= i < |ids| ==> ids[i] in branches && branches[ids[i]].status.Completed?
  }

  /** A scan that calls for a join has seen every branch completed; without a failure every result is of a completed one. */
  ghost predicate Truthful(branches: map<TaskId, BranchTask>, ids: seq<TaskId>, scan: Scan) {
    && (scan.allCompleted && !scan.anyFailed ==> AllDone(branches, ids))
    && (!scan.anyFailed ==> forall id :: id in scan.results ==> id in branches && branches[id].status.Completed?)
  }

  lemma TruthfulNone(branches: map<TaskId, BranchTask>, ids: seq<TaskId>)
    ensures Truthful(branches, ids[..0], Scan(true, false, map[]))
  {
  }

  lemma TruthfulOne(branches: map<TaskId, BranchTask>, ids: seq<TaskId>, k: nat, scan: Scan)
    requires k < |ids| && Truthful(branches, ids[..k], scan)
    ensures Truthful(branches, ids[..k + 1],
                     ScanOne(ids[k], if ids[k] in branches then Some(branches[ids[k]]) else None, scan))
  {
    assert ids[..k + 1] == ids[..k] + [ids[k]];
    assert scan.allCompleted && !scan.anyFailed ==>
        forall i :: 0 <= i < k ==> ids[..k][i] in branches && branches[ids[..k][i]].status.Completed?;
  }

  /** What a scan over these branches, none of which stopped it, holds. */
  ghost predicate Scanned(branches: map<TaskId, BranchTask>, ids: seq<TaskId>, scan: Scan) {
    && Collected(branches, ids, |ids|, scan)
    && Truthful(branches, ids, scan)
    && (AllDone(branches, ids) ==> scan == Scan(true, false, Outputs(branches, ids)))
  }

  lemma ScannedNone(branches: map<TaskId, BranchTask>, ids: seq<TaskId>)
    ensures Scanned(branches, ids[..0], Scan(true, false, map[]))
  {
    TruthfulNone(branches, ids);
    OutputsNone(branches, ids);
  }

  lemma ScannedOne(branches: map<TaskId, BranchTask>, ids: seq<TaskId>, k: nat, scan: Scan, strategy: JoinStrategy)
    requires k < |ids| && Scanned(branches, ids[..k], scan)
    ensures var branch := if ids[k] in branches then Some(branches[ids[k]]) else None;
            && Scanned(branches, ids[..k + 1], ScanOne(ids[k], branch, scan))
            && (StopsScan(strategy, branch) ==> !AllDone(branches, ids))
  {
    hide Truthful, Outputs, ScanOne;
    TruthfulOne(branches, ids, k, scan);
    CollectedOne(branches, ids, k, scan);
    assert ids[..k + 1][..k] == ids[..k] && ids[..k + 1][k] == ids[k] && ids[..k][..k] == ids[..k];
    assert ids[..k + 1][..k + 1] == ids[..k + 1];
    if AllDone(branches, ids[..k + 1]) {
      AllDoneBefore(branches, ids, k);
      OutputsOne(branches, ids[..k + 1], k);
    }
  }

  lemma AllDoneBefore(branches: map<TaskId, BranchTask>, ids: seq<TaskId>, k: nat)
    requires k < |ids| && AllDone(branches, ids[..k + 1])
    ensures AllDone(branches, ids[..k]) && ids[k] in branches && branches[ids[k]].status.Completed?
  {
    assert ids[..k + 1][k] == ids[k];
    assert forall i :: 0 <= i < k ==> ids[..k][i] == ids[..k + 1][i];
  }

  /** All that the join under `All` needs of a scan. */
  ghost predicate CallsForJoin(ids: seq<TaskId>, scan: Scan) {
    !scan.anyFailed && (scan.allCompleted || forall i :: 0 <= i < |ids| ==> ids[i] in scan.results)
  }

  lemma JoinOnlyWhenDone(branches: map<TaskId, BranchTask>, ids: seq<TaskId>, scan: Scan)
    requires Truthful(branches, ids, scan) && CallsForJoin(ids, scan)
    ensures AllDone(branches, ids)
  {
  }

  function OutputOf(branch: BranchTask): BranchResult {
    Finished(branch.output.GetOr(Obj(map["_no_output" := Bool(true)])))
  }

  /** Each branch with its output. */
  ghost function Outputs(branches: map<TaskId, BranchTask>, ids: seq<TaskId>): Results {
    map id | id in ids && id in branches :: OutputOf(branches[id])
  }

  lemma OutputsNone(branches: map<TaskId, BranchTask>, ids: seq<TaskId>)
    ensures Outputs(branches, ids[..0]) == map[]
  {
  }

  lemma OutputsOne(branches: map<TaskId, BranchTask>, ids: seq<TaskId>, k: nat)
    requires k < |ids| && AllDone(branches, ids)
    ensures ids[k] in branches
    ensures ScanOne(ids[k], Some(branches[ids[k]]), Scan(true, false, Outputs(branches, ids[..k])))
         == Scan(true, false, Outputs(branches, ids[..k + 1]))
  {
    assert ids[..k + 1] == ids[..k] + [ids[k]];
    assert Outputs(branches, ids[..k])[ids[k] := OutputOf(branches[ids[k]])] == Outputs(branches, ids[..k + 1]);
  }

  /** The store after a join: the results merged, and the first automatic transition, if there is one, taken. */
  ghost function AfterJoin(cfg: Config, s: Shared, w: WorkerId, snap: Task, results: Results, failed: bool): Shared
    requires AtParallel(cfg, snap)
  {
    var merged := MergeData(cfg, s, ResultsPatch(results, failed));
    match FirstAuto(StateOf(cfg, snap).transitions, 0)
    case None => merged
    case Some(k) => AfterMove(cfg, merged, w, JoinMove(cfg, snap, k, results, failed))
  }

  function JoinMove(cfg: Config, snap: Task, k: nat, results: Results, failed: bool): Move
    requires AtParallel(cfg, snap) && k < |StateOf(cfg, snap).transitions|
  {
    Move(snap, StateOf(cfg, snap).transitions[k].to, Joined(results, failed))
  }

  /** Where a worker goes once the results are merged. */
  function JoinNext(cfg: Config, snap: Task, results: Results, failed: bool): Pc
    requires AtParallel(cfg, snap)
  {
    match FirstAuto(StateOf(cfg, snap).transitions, 0)
    case None => Done(Ok(()))
    case Some(k) => Commit(JoinMove(cfg, snap, k, results, failed))
  }

  lemma MergeKeepsVersion(cfg: Config, s: Shared, patch: Fields)
    ensures MergeData(cfg, s, patch).task.version == s.task.version
  {
  }

  /** The store after a transition with all its entry actions. */
  ghost function AfterMove(cfg: Config, s: Shared, w: WorkerId, m: Move): Shared {
    Entered(cfg, CommitMove(cfg, s, w, m), EntryActions(cfg, m))
  }

  /** So an undisturbed join moves the parent to the target of its first automatic transition, in one commit, and leaves
      it where it is if there is none. */
  lemma JoinMoves(cfg: Config, s: Shared, w: WorkerId, snap: Task, results: Results, failed: bool)
    requires AtParallel(cfg, snap)
    ensures var s', ts := AfterJoin(cfg, s, w, snap, results, failed), StateOf(cfg, snap).transitions;
            match FirstAuto(ts, 0)
            case None => s'.log == s.log && s'.task.currentState == s.task.currentState
            case Some(k) =>
              && s'.log == s.log + [Committed(w, Move(snap, ts[k].to, Joined(results, failed)))]
              && s'.task.currentState == ts[k].to && s'.task.version == snap.version + 1
              && s'.task.status == StatusFor(cfg.def, snap, ts[k].to)
  {
    hide StatusFor, ResultsPatch, StoreMerge;
    var ts, merged := StateOf(cfg, snap).transitions, MergeData(cfg, s, ResultsPatch(results, failed));
    match FirstAuto(ts, 0) {
      case None =>
      case Some(k) =>
        var m := Move(snap, ts[k].to, Joined(results, failed));
        EnteredKeepsMove(cfg, CommitMove(cfg, merged, w, m), EntryActions(cfg, m));
    }
  }

  lemma {:induction false} EnteredKeepsMove(cfg: Config, s: Shared, actions: seq<OnEnterAction>)
    ensures var s' := Entered(cfg, s, actions);
            && s'.log == s.log && s'.task.currentState == s.task.currentState
            && s'.task.version == s.task.version && s'.task.status == s.task.status
  {
    hide StoreMerge;
    if actions != [] {
      EnteredKeepsMove(cfg, s, actions[..|actions| - 1]);
    }
  }

  /** The branches with the recorded ones among the first `k` that have no result failed as timed out. */
  ghost function Swept(branches: map<TaskId, BranchTask>, ids: seq<TaskId>, k: nat, results: Results)
    : map<TaskId, BranchTask>
    requires k <= |ids|
  {
    map id | id in branches ::
      if id in ids[..k] && id !in results then branches[id].(status := Failed(TIMEOUT_MESSAGE)) else branches[id]
  }

  /** The branches with exactly the unfinished recorded ones failed. */
  ghost function GivenUp(branches: map<TaskId, BranchTask>, ids: seq<TaskId>): map<TaskId, BranchTask> {
    map id | id in branches ::
      if id in ids && !Concluded(branches, id) then branches[id].(status := Failed(TIMEOUT_MESSAGE)) else branches[id]
  }

  lemma SweptIsGivenUp(branches: map<TaskId, BranchTask>, ids: seq<TaskId>, scan: Scan)
    requires Collected(branches, ids, |ids|, scan)
    ensures Swept(branches, ids, |ids|, scan.results) == GivenUp(branches, ids)
  {
  }

  /** One new branch per definition, each running on its own input, and no other change. */
  ghost predicate SpawnedFor(before: map<TaskId, BranchTask>, snap: Task, defs: seq<BranchDef>, ids: seq<TaskId>,
                             after: map<TaskId, BranchTask>)
  {
    && |ids| == |defs| && Distinct(ids)
    && (forall i :: 0 <= i < |ids| ==>
          && ids[i] !in before && ids[i] in after
          && after[ids[i]].status == Running && after[ids[i]].output == None
          && IsInput(snap.stateData, defs[i], after[ids[i]].input))
    && (forall id :: id in before ==> id in after && after[id] == before[id])
    && (forall id :: id in after ==> id in before || id in ids)
  }

  lemma NoneSpawned(before: map<TaskId, BranchTask>, snap: Task, defs: seq<BranchDef>)
    ensures SpawnedFor(before, snap, defs[..0], [], before)
  {
  }

  lemma OneMoreSpawned(before: map<TaskId, BranchTask>, snap: Task, defs: seq<BranchDef>, i: nat, ids: seq<TaskId>,
                       held: map<TaskId, BranchTask>, id: TaskId)
    requires i < |defs| && SpawnedFor(before, snap, defs[..i], ids, held) && id !in held
    ensures SpawnedFor(before, snap, defs[..i + 1], ids + [id],
                       held[id := BranchTask(BranchInput(snap, defs[i]), Running, None)])
  {
    hide BranchInput, IsInput;
    InputExactly(snap, defs[i], BranchInput(snap, defs[i]));
    assert defs[..i + 1] == defs[..i] + [defs[i]];
    assert forall j :: 0 <= j < |ids| ==> (ids + [id])[j] == ids[j] && ids[j] in held;
    assert (ids + [id])[|ids|] == id;
  }

  ghost predicate KeysAdded(results: Results, first: Results, ids: seq<TaskId>, k: nat)
    requires k <= |ids|
  {
    forall id :: id in results <==> id in first || id in ids[..k]
  }

  lemma KeysNone(ids: seq<TaskId>, first: Results)
    ensures KeysAdded(first, first, ids, 0)
  {
  }

  lemma SweptNone(branches: map<TaskId, BranchTask>, ids: seq<TaskId>, results: Results)
    ensures Swept(branches, ids, 0, results) == branches
  {
  }

  /** One more branch of the sweep: skipped when it has a result already, failed otherwise. */
  lemma SweptOne(was: map<TaskId, BranchTask>, ids: seq<TaskId>, k: nat, first: Results, results: Results)
    requires k < |ids| && KeysAdded(results, first, ids, k)
    ensures ids[k] in results ==> Swept(was, ids, k + 1, first) == Swept(was, ids, k, first)
    ensures ids[k] !in results && ids[k] in was ==>
              var mid := Swept(was, ids, k, first);
              && ids[k] in mid
              && Swept(was, ids, k + 1, first) == mid[ids[k] := mid[ids[k]].(status := Failed(TIMEOUT_MESSAGE))]
    ensures forall results': Results :: results'.Keys == results.Keys + {ids[k]} ==> KeysAdded(results', first, ids, k + 1)
  {
    assert ids[..k + 1] == ids[..k] + [ids[k]];
    assert ids[k] in ids[..k + 1];
  }

  lemma SweptKeys(was: map<TaskId, BranchTask>, ids: seq<TaskId>, k: nat, first: Results)
    requires k <= |ids|
    ensures Swept(was, ids, k, first).Keys == was.Keys
  {
  }

  /** What entering the target of a move has to do. */
  function EntryActions(cfg: Config, m: Move): seq<OnEnterAction> {
    if m.target in cfg.def.states then cfg.def.states[m.target].onEnter.GetOr([]) else []
  }

  /** The store after entry actions: only `SetVariable` changes it, in the listed order. */
  function Entered(cfg: Config, s: Shared, actions: seq<OnEnterAction>): Shared {
    if actions == [] then s
    else
      var n := |actions| - 1;
      var before := Entered(cfg, s, actions[..n]);
      match actions[n]
      case SetVariable(key, value) => MergeData(cfg, before, map[key := value])
      case _ => before
  }

  lemma {:induction false} EnteredKeepsBranches(cfg: Config, s: Shared, actions: seq<OnEnterAction>)
    ensures Entered(cfg, s, actions).branches == s.branches
  {
    hide MergeData;
    if actions != [] {
      EnteredKeepsBranches(cfg, s, actions[..|actions| - 1]);
      MergeBranches(cfg, Entered(cfg, s, actions[..|actions| - 1]));
    }
  }

  lemma EnteredBranches(cfg: Config, s: Shared)
    ensures forall actions :: Entered(cfg, s, actions).branches == s.branches
  {
    forall actions ensures Entered(cfg, s, actions).branches == s.branches {
      EnteredKeepsBranches(cfg, s, actions);
    }
  }

  lemma WholeEntry(cfg: Config, m: Move)
    ensures EntryActions(cfg, m)[..|EntryActions(cfg, m)|] == EntryActions(cfg, m)
  {
  }

  lemma EnteredNothing(cfg: Config, s: Shared)
    ensures Entered(cfg, s, []) == s
  {
  }

  lemma CommitKeepsBranches(cfg: Config, s: Shared, w: WorkerId, m: Move)
    ensures CommitMove(cfg, s, w, m).branches == s.branches
  {
  }

  lemma EnteredStep(cfg: Config, s: Shared, actions: seq<OnEnterAction>, k: nat)
    requires k < |actions|
    ensures Entered(cfg, s, actions[..k + 1])
         == match actions[k]
            case SetVariable(key, value) => MergeData(cfg, Entered(cfg, s, actions[..k]), map[key := value])
            case _ => Entered(cfg, s, actions[..k])
  {
    assert actions[..k + 1][..k] == actions[..k];
  }

  lemma OnEnterStep(cfg: Config, s: Shared, w: WorkerId, m: Move, k: nat, c: Choice)
    ensures Step(cfg, s, w, OnEnter(m, k), c) == StepOnEnter(cfg, s, m, k, c)
  {
  }

  lemma SweepStep(cfg: Config, s: Shared, w: WorkerId, snap: Task, ids: seq<TaskId>, k: nat, scan: Scan, c: Choice)
    ensures Step(cfg, s, w, Sweep(snap, ids, k, scan), c) == StepSweep(cfg, s, snap, ids, k, scan, c)
  {
    hide StepSweep;
  }

  class Engine {
    const cfg: Config
    const self: WorkerId
    const schedule: nat -> Moment
    var tick: nat
    var task: Task
    var flow: FlowState
    var branches: map<TaskId, BranchTask>
    var log: seq<Committed>
    var peers: map<WorkerId, Pc>

    /** Where this worker is in the machine, and the run so far. */
    ghost var pc: Option<Pc>
    ghost var trace: seq<Action>

    function Store(): Shared reads this { Shared(task, flow, branches, log) }

    ghost predicate Valid() reads this {
      self !in peers && Reach(cfg, trace) == With(Sys(Store(), peers), self, pc)
    }

    /** `create_task` up to its first advance: the task in the flow's initial state at version 0. */
    constructor (cfg: Config, self: WorkerId, schedule: nat -> Moment)
      ensures this.cfg == cfg && this.self == self && this.schedule == schedule
      ensures Valid() && pc == None && trace == []
      ensures task == Task(cfg.def.initialState, map[], Running, 0)
    {
      this.cfg, this.self, this.schedule := cfg, self, schedule;
      tick := 0;
      task := Task(cfg.def.initialState, map[], Running, 0);
      flow := FlowState(cfg.def.initialState, [], None, 0);
      branches, log, peers := map[], [], map[];
      pc, trace := None, [];
    }

    /** From now on nobody else acts while this worker awaits; what happened before may be anything. */
    ghost predicate Quiet() reads this`tick {
      forall n: nat :: n >= tick ==> schedule(n).others == []
    }

    /** From now on every operation this worker awaits succeeds. */
    ghost predicate Lucky() reads this`tick {
      forall n: nat :: n >= tick ==> schedule(n).choice.ok
    }

    // ── awaiting and recording ──

    /** Lets the others act, then says how this worker's operation turns out. */
    method Await() returns (c: Choice)
      requires Valid()
      modifies this`tick, this`task, this`flow, this`branches, this`log, this`peers, this`trace
      ensures old(trace) <= trace && old(tick) <= tick
      ensures Valid()
      ensures old(Quiet()) ==> Store() == old(Store())
      ensures old(Lucky()) ==> c.ok
    {
      var moment := schedule(tick);
      tick := tick + 1;
      for i := 0 to |moment.others|
        invariant old(trace) <= trace && old(tick) <= tick
        invariant Valid() && pc == old(pc)
        invariant i == 0 ==> Store() == old(Store())
      {
        var a := moment.others[i];
        if !ActedBy(a, self) {
          OthersIgnore(cfg, Sys(Store(), peers), self, pc, a);
          OneMore(cfg, trace, a);
          var next := Apply(cfg, Sys(Store(), peers), a);
          task, flow, branches, log := next.shared.task, next.shared.flow, next.shared.branches, next.shared.log;
          peers := next.workers;
          trace := trace + [a];
        }
      }
      c := moment.choice;
    }

    /** Adds this worker's step, whose effect the caller has written, to the run. */
    ghost method Record(c: Choice, before: Shared)
      requires self !in peers && pc.Some?
      requires Reach(cfg, trace) == Sys(before, peers[self := pc.value])
      requires Store() == Step(cfg, before, self, pc.value, c).0
      modifies this`pc, this`trace
      ensures old(trace) <= trace && old(tick) <= tick
      ensures Valid() && pc == Some(Step(cfg, before, self, old(pc).value, c).1)
    {
      OneMore(cfg, trace, Act(self, c));
      var next := Step(cfg, before, self, pc.value, c).1;
      assert peers[self := pc.value][self := next] == peers[self := next];
      trace := trace + [Act(self, c)];
      pc := Some(next);
    }

    /** A step that only decides. */
    ghost method Decided(c: Choice)
      requires Valid() && pc.Some? && Step(cfg, Store(), self, pc.value, c).0 == Store()
      modifies this`pc, this`trace
      ensures old(trace) <= trace && old(tick) <= tick
      ensures Valid() && pc == Some(Step(cfg, Store(), self, old(pc).value, c).1)
    {
      Record(c, Store());
    }

    /** Starts `advance_by_id`, or `force_transition` on a task still to be read. */
    ghost method Launched(a: Action)
      requires Valid() && (pc.None? || pc.value.Done?)
      requires a == Launch(self) || (a.LaunchForced? && a.w == self)
      modifies this`pc, this`trace
      ensures old(trace) <= trace && old(tick) <= tick
      ensures Valid() && pc == Some(if a.Launch? then ReadTask(0) else ReadForced(a.target))
      ensures trace == old(trace) + [a]
    {
      OneMore(cfg, trace, a);
      var next := if a.Launch? then ReadTask(0) else ReadForced(a.target);
      assert pc.Some? ==> peers[self := pc.value][self := next] == peers[self := next];
      trace := trace + [a];
      pc := Some(next);
    }

    /** What is proved of runs holds of this engine: in an acyclic flow of at most 100 states that nobody forces,
        `advance_by_id` does not report the cascade depth. */
    lemma DepthSafe(r: Outcome)
      requires Valid() && pc == Some(Done(r))
      requires Registered(cfg) && NoForce(trace) && Acyclic(cfg) && |cfg.def.states| <= MAX_CASCADE_DEPTH
      ensures r != Err(CascadeDepth)
    {
      NeverTooDeep(cfg, trace, self);
    }

    // ── the store's operations, each one step of the machine ──

    method GetTask(ghost iteration: nat) returns (r: Result<Task, EngineError>)
      requires Valid() && pc == Some(ReadTask(iteration))
      modifies this
      ensures old(trace) <= trace && old(tick) <= tick
      ensures Valid()
      ensures r.Ok? ==> pc == Some(AfterRead(cfg, iteration, r.value))
      ensures r.Err? ==> pc == Some(Done(Err(r.error)))
      ensures old(Lucky()) ==> r.Ok?
    {
      var c := Await();
      r := if c.ok then Ok(task) else Err(StoreFault);
      Decided(c);
    }

    method GetFlowState(ghost iteration: nat, snap: Task) returns (r: Result<FlowState, EngineError>, now: int)
      requires Valid() && pc == Some(ReadFlow(iteration, snap)) && Ordinary(cfg, snap)
      modifies this
      ensures old(trace) <= trace && old(tick) <= tick
      ensures Valid()
      ensures r.Ok? ==> pc == Some(AfterFlowRead(cfg, iteration, snap, r.value, now))
      ensures r.Err? ==> pc == Some(Done(Err(r.error)))
      ensures old(Lucky()) ==> r.Ok?
    {
      hide AfterFlowRead;
      var c := Await();
      r, now := if c.ok then Ok(flow) else Err(StoreFault), c.now;
      Decided(c);
    }

    /** `advance_task` on the store as it is at that moment, `before`: a version that has moved on is a conflict; on a
        matching version task, flow state and log move together, unless the store loses the write; nothing else changes
        the store. */
    method AdvanceTask(m: Move) returns (r: Outcome, lost: bool, ghost before: Shared)
      requires Valid() && pc == Some(Commit(m))
      modifies this
      ensures old(trace) <= trace && old(tick) <= tick
      ensures old(Quiet()) ==> before == old(Store())
      ensures before.task.version != m.snap.version <==> r == Err(Conflict)
      ensures lost <==> r == Err(StoreFault)
      ensures lost ==> !cfg.reliable
      ensures old(Lucky()) ==> !lost
      ensures r.Err? ==> r.error == Conflict || lost
      ensures Store() == if r.Ok? then CommitMove(cfg, before, self, m) else before
      ensures Valid()
      ensures r.Ok? ==> pc == Some(Announce(m)) && !lost
      ensures r.Err? ==> pc == Some(AfterFailure(cfg, m, r.error, lost))
    {
      hide AfterFailure, StatusFor;
      var c := Await();
      before := Store();
      if task.version != m.snap.version {
        r, lost := Err(Conflict), false;
      } else if !c.ok && !cfg.reliable {
        r, lost := Err(StoreFault), true;
      } else {
        r, lost := Ok(()), false;
        task := task.(currentState := m.target, status := StatusFor(cfg.def, m.snap, m.target),
                      version := m.snap.version + 1);
        flow := flow.(currentState := m.target, history := flow.history + [(m.snap.currentState, m.target)]);
        log := log + [Committed(self, m)];
      }
      Record(c, before);
    }

    method Publish(m: Move) returns (r: Outcome)
      requires Valid() && pc == Some(Announce(m))
      modifies this
      ensures old(trace) <= trace && old(tick) <= tick
      ensures old(Quiet()) ==> Store() == old(Store())
      ensures Valid()
      ensures old(Lucky()) ==> r.Ok?
      ensures r.Ok? ==> pc == Some(OnEnter(m, 0))
      ensures r.Err? ==> pc == Some(AfterFailure(cfg, m, r.error, false))
    {
      hide AfterFailure;
      var c := Await();
      r := if c.ok then Ok(()) else Err(BusFault);
      Decided(c);
    }

    /** `execute_on_enter`: publishes, merges and logs in the listed order, stopping at the first failure. Undisturbed,
        the store afterwards is the effect of the first `done` actions, all of them when nothing failed. */
    method ExecuteOnEnter(m: Move, actions: seq<OnEnterAction>) returns (r: Outcome, ghost done: nat)
      requires Valid() && pc == Some(OnEnter(m, 0))
      requires actions == EntryActions(cfg, m)
      modifies this
      ensures old(trace) <= trace && old(tick) <= tick
      ensures done <= |actions| && (r.Ok? ==> done == |actions|)
      ensures old(Lucky()) ==> r.Ok?
      ensures old(Quiet()) ==> Store() == Entered(cfg, old(Store()), actions[..done])
      ensures Valid()
      ensures r.Ok? ==> pc == Some(AfterTransition(m))
      ensures r.Err? ==> pc == Some(AfterFailure(cfg, m, r.error, false))
    {
      hide AfterFailure, AfterTransition, StoreMerge, Step;
      done := 0;
      for k := 0 to |actions|
        invariant done == k
        invariant old(trace) <= trace && old(tick) <= tick
        invariant Valid() && pc == Some(OnEnter(m, k))
        invariant old(Quiet()) ==> Store() == Entered(cfg, old(Store()), actions[..k])
      {
        EnteredStep(cfg, old(Store()), actions, k);
        var c := Await();
        ghost var before := Store();
        OnEnterStep(cfg, before, self, m, k, c);
        match actions[k] {
          case PublishEvent(_) =>
            if !c.ok { Record(c, before); return Err(BusFault), done; }
          case SetVariable(key, value) =>
            if !c.ok { Record(c, before); return Err(StoreFault), done; }
            task := task.(stateData := StoreMerge(cfg.backend, task.stateData, map[key := value]));
          case Log(_) =>
        }
        Record(c, before);
        done := k + 1;
      }
      assert actions[..|actions|] == actions;
      OnEnterStep(cfg, Store(), self, m, |actions|, Choice(true, 0, ""));
      Decided(Choice(true, 0, ""));
      return Ok(()), done;
    }

    // ── transitions and the error policy ──

    /** `transition`: commit, publish, enter. A failure may come before or after the commit. Undisturbed, the store is
        left alone when the commit fails; otherwise it is the committed one with the first `done` entry actions on top,
        all of them on success. */
    method Transition(m: Move) returns (r: Outcome, lost: bool, ghost committed: bool, ghost done: nat)
      requires Valid() && pc == Some(Commit(m))
      modifies this
      ensures old(trace) <= trace && old(tick) <= tick
      ensures old(Quiet()) ==> branches == old(branches)
      ensures done <= |EntryActions(cfg, m)| && (r.Ok? ==> committed && done == |EntryActions(cfg, m)|)
      ensures lost ==> !committed
      ensures old(Lucky()) ==> !lost && (committed ==> r.Ok?)
      ensures old(Quiet()) ==> (committed <==> old(task.version) == m.snap.version && !lost)
      ensures old(Quiet()) ==>
                Store() == if committed then Entered(cfg, CommitMove(cfg, old(Store()), self, m), EntryActions(cfg, m)[..done])
                           else old(Store())
      ensures Valid()
      ensures r.Ok? ==> pc == Some(AfterTransition(m))
      ensures r.Err? ==> pc == Some(AfterFailure(cfg, m, r.error, lost))
    {
      hide AfterFailure, AfterTransition, CommitMove, Entered;
      EnteredBranches(cfg, CommitMove(cfg, Store(), self, m));
      CommitKeepsBranches(cfg, Store(), self, m);
      EnteredNothing(cfg, CommitMove(cfg, Store(), self, m));
      ghost var before;
      done := 0;
      r, lost, before := AdvanceTask(m);
      committed := r.Ok?;
      assert EntryActions(cfg, m)[..0] == [];
      if r.Err? { return; }
      r := Publish(m);
      if r.Err? { return; }
      r, done := ExecuteOnEnter(m, EntryActions(cfg, m));
    }

    method SaveRetryCount(snap: Task, updated: FlowState) returns (r: Outcome)
      requires Valid() && pc == Some(SaveRetry(snap, updated))
      modifies this
      ensures old(trace) <= trace && old(tick) <= tick
      ensures Valid()
      ensures old(Quiet()) ==> Store() == if r.Ok? then old(Store()).(flow := updated) else old(Store())
      ensures r.Ok? ==> pc == Some(AnnounceRetry)
      ensures r.Err? ==> pc == Some(Done(r))
      ensures old(Lucky()) ==> r.Ok?
    {
      var c := Await();
      ghost var before := Store();
      if c.ok { flow := updated; }
      r := if c.ok then Ok(()) else Err(StoreFault);
      Record(c, before);
    }

    method PublishRetry() returns (r: Outcome)
      requires Valid() && pc == Some(AnnounceRetry)
      modifies this
      ensures old(trace) <= trace && old(tick) <= tick
      ensures Valid()
      ensures old(Quiet()) ==> Store() == old(Store())
      ensures r.Ok? ==> pc == Some(Done(Ok(())))
      ensures r.Err? ==> pc == Some(Done(Err(r.error)))
      ensures old(Lucky()) ==> r.Ok?
    {
      var c := Await();
      r := if c.ok then Ok(()) else Err(BusFault);
      Decided(c);
    }

    /** `handle_error_policy`: whether the policy took over, or the error it met on the way. It applies exactly to the
        listed states. Undisturbed: while retries remain it saves the flow state it was given with one more retry counted
        and nothing else; afterwards it moves the task to the fallback state, or leaves the store alone. */
    method HandleErrorPolicy(m: Move, e: EngineError, lost: bool) returns (r: Result<bool, EngineError>)
      requires m.cause.Matched?
      requires Valid() && pc == Some(AfterFailure(cfg, m, e, lost))
      modifies this
      ensures old(trace) <= trace && old(tick) <= tick
      ensures Valid()
      ensures pc == Some(Done(PolicyOutcome(r, e)))
      ensures r == Ok(false) <==>
                cfg.def.onError.None? || m.snap.currentState !in cfg.def.onError.value.retryStates
      ensures old(Quiet()) && r == Ok(false) ==> Store() == old(Store())
      ensures old(Quiet()) && r == Ok(true) && m.cause.flow.retryCount < cfg.def.onError.value.maxRetries ==>
                Store() == old(Store()).(flow := m.cause.flow.(retryCount := m.cause.flow.retryCount + 1))
      ensures old(Quiet()) && r == Ok(true) && m.cause.flow.retryCount >= cfg.def.onError.value.maxRetries ==>
                var fallback := Move(m.snap, cfg.def.onError.value.fallback, Fallback(m.cause.flow, lost));
                && old(task.version) == m.snap.version
                && Store() == Entered(cfg, CommitMove(cfg, old(Store()), self, fallback), EntryActions(cfg, fallback))
    {
      hide CommitMove, Entered;
      if cfg.def.onError.None? { return Ok(false); }
      var policy, was := cfg.def.onError.value, m.cause.flow;
      if m.snap.currentState !in policy.retryStates { return Ok(false); }
      if was.retryCount < policy.maxRetries {
        var saved := SaveRetryCount(m.snap, was.(retryCount := was.retryCount + 1));
        if saved.Err? { return Err(saved.error); }
        var announced := PublishRetry();
        return if announced.Ok? then Ok(true) else Err(announced.error);
      }
      if policy.fallback !in cfg.def.states { return Err(EngineError.UnknownTarget); }
      var fallback := Move(m.snap, policy.fallback, Fallback(was, lost));
      var forced, _, committed, done := Transition(fallback);
      assert EntryActions(cfg, fallback)[..|EntryActions(cfg, fallback)|] == EntryActions(cfg, fallback);
      return if forced.Ok? then Ok(true) else Err(forced.error);
    }

    /** One attempted transition of the loop: nothing on success, otherwise how `advance_by_id` returns. */
    method Attempt(m: Move) returns (stop: Option<Outcome>)
      requires m.cause.Matched?
      requires Valid() && pc == Some(Commit(m))
      modifies this
      ensures old(trace) <= trace && old(tick) <= tick
      ensures Valid()
      ensures stop.None? ==> pc == Some(AfterTransition(m))
      ensures stop.Some? ==> pc == Some(Done(stop.value))
    {
      hide AfterFailure, AfterTransition;
      var r, lost, _, _ := Transition(m);
      if r.Ok? { return None; }
      var handled := HandleErrorPolicy(m, r.error, lost);
      match handled {
        case Ok(true) => return Some(Ok(()));
        case Ok(false) => return Some(Err(r.error));
        case Err(e) => return Some(Err(e));
      }
    }

    /** The scan over the listed transitions of an ordinary state. */
    method ScanTransitions(ts: seq<TransitionDef>, facts: Facts) returns (d: Decision)
      ensures d == Decide(ts, 0, facts)
    {
      hide Evaluate;
      for k := 0 to |ts|
        invariant Decide(ts, 0, facts) == Decide(ts, k, facts)
      {
        if ts[k].auto.GetOr(false) { return Take(k); }
        if ts[k].condition.Some? {
          match Evaluate(ts[k].condition.value, facts) {
            case Err(e) => return Broken(e);
            case Ok(true) => return Take(k);
            case Ok(false) =>
          }
        }
      }
      return Stay;
    }

    /** `advance_by_id`: cascades until the task stays, ends, waits, fails or the depth limit is met. */
    method AdvanceById() returns (r: Outcome)
      requires Valid() && (pc.None? || pc.value.Done?)
      modifies this
      ensures old(trace) <= trace && old(tick) <= tick
      ensures Valid() && pc == Some(Done(r))
    {
      Launched(Launch(self));
      for iteration := 0 to MAX_CASCADE_DEPTH
        invariant old(trace) <= trace && old(tick) <= tick
        invariant Valid()
        invariant pc == Some(if iteration == MAX_CASCADE_DEPTH then Done(Err(CascadeDepth)) else ReadTask(iteration))
      {
        var stop := Iterate(iteration);
        if stop.Some? { return stop.value; }
      }
      return Err(CascadeDepth);
    }

    /** One pass of the loop: nothing when a transition was taken, otherwise how `advance_by_id` returns. */
    method Iterate(iteration: nat) returns (stop: Option<Outcome>)
      requires iteration < MAX_CASCADE_DEPTH
      requires Valid() && pc == Some(ReadTask(iteration))
      modifies this
      ensures old(trace) <= trace && old(tick) <= tick
      ensures Valid()
      ensures stop.None? ==>
                pc == Some(if iteration + 1 == MAX_CASCADE_DEPTH then Done(Err(CascadeDepth)) else ReadTask(iteration + 1))
      ensures stop.Some? ==> pc == Some(Done(stop.value))
    {
      hide AfterFailure;
      var loaded := GetTask(iteration);
      if loaded.Err? { return Some(Err(loaded.error)); }
      var snap := loaded.value;
      if snap.currentState !in cfg.def.states { return Some(Err(UnknownState)); }
      var state := cfg.def.states[snap.currentState];
      if state.stateType.End? { return Some(Ok(())); }
      if state.stateType.Parallel? {
        var joined := HandleParallelState(snap);
        return Some(joined);
      }
      var read, now := GetFlowState(iteration, snap);
      if read.Err? { return Some(Err(read.error)); }
      var decision := ScanTransitions(state.transitions, FactsOf(cfg, snap, read.value, now));
      match decision {
        case Stay => return Some(Ok(()));
        case Broken(e) => return Some(Err(BadCondition(e)));
        case Take(k) =>
          stop := Attempt(Move(snap, state.transitions[k].to, Matched(iteration, read.value, k, now)));
      }
    }

    /** `force_transition` by an administrator, on the task as read at some earlier moment. */
    method ForceTransition(target: StateName) returns (r: Outcome)
      requires Valid() && (pc.None? || pc.value.Done?)
      modifies this
      ensures old(trace) <= trace && old(tick) <= tick
      ensures Valid() && pc == Some(Done(r))
    {
      hide StatusFor;
      Launched(LaunchForced(self, target));
      var c := Await();
      var snap := task;
      Decided(c);
      if !c.ok { return Err(StoreFault); }
      if target !in cfg.def.states { return Err(EngineError.UnknownTarget); }
      var done, _, _, _ := Transition(Move(snap, target, Forced));
      return if done.Ok? then Ok(()) else Err(done.error);
    }

    // ── the Parallel state ──

    /** `handle_parallel_state`: spawns on the first visit, checks and joins on later ones. */
    method HandleParallelState(snap: Task) returns (r: Outcome)
      requires AtParallel(cfg, snap)
      requires Valid() && pc == Some(AfterParallelRead(cfg, snap))
      modifies this
      ensures old(trace) <= trace && old(tick) <= tick
      ensures Valid() && pc == Some(Done(r))
    {
      var state := StateOf(cfg, snap);
      if state.branches.GetOr([]) == [] { return Ok(()); }
      var ids := Recorded(snap.stateData);
      if ids == [] {
        ghost var spawned;
        r, spawned := SpawnBranches(snap, state.branches.GetOr([]));
      } else {
        r := CheckBranches(snap, ids);
      }
    }

    method SpawnBranch(snap: Task, branch: BranchDef, ids: seq<TaskId>) returns (r: Result<TaskId, EngineError>)
      requires AtParallel(cfg, snap) && |ids| < |StateOf(cfg, snap).branches.GetOr([])|
      requires branch == StateOf(cfg, snap).branches.GetOr([])[|ids|]
      requires Valid() && pc == Some(Spawn(snap, ids))
      modifies this
      ensures old(trace) <= trace && old(tick) <= tick
      ensures Valid()
      ensures old(Quiet()) && r.Ok? ==>
                && r.value !in old(branches)
                && Store() == old(Store()).(branches := old(branches)[r.value := BranchTask(BranchInput(snap, branch), Running, None)])
      ensures r.Ok? ==> pc == Some(AnnounceBranch(snap, ids + [r.value]))
      ensures r.Err? ==> pc == Some(Done(Err(r.error)))
    {
      hide BranchInput;
      var c := Await();
      ghost var before := Store();
      if !c.ok || c.id in branches {
        r := Err(StoreFault);
      } else {
        branches := branches[c.id := BranchTask(BranchInput(snap, branch), Running, None)];
        r := Ok(c.id);
      }
      Record(c, before);
    }

    method PublishBranch(snap: Task, ids: seq<TaskId>) returns (r: Outcome)
      requires Valid() && pc == Some(AnnounceBranch(snap, ids))
      modifies this
      ensures old(trace) <= trace && old(tick) <= tick
      ensures Valid()
      ensures old(Quiet()) ==> Store() == old(Store())
      ensures r.Ok? ==> pc == Some(Spawn(snap, ids))
      ensures r.Err? ==> pc == Some(Done(Err(r.error)))
      ensures old(Lucky()) ==> r.Ok?
    {
      var c := Await();
      r := if c.ok then Ok(()) else Err(BusFault);
      Decided(c);
    }

    method RecordBranchTasks(snap: Task, ids: seq<TaskId>) returns (r: Outcome)
      requires AtParallel(cfg, snap)
      requires Valid() && pc == Some(RecordBranches(snap, ids))
      modifies this
      ensures old(trace) <= trace && old(tick) <= tick
      ensures Valid() && pc == Some(Done(r))
      ensures r.Ok? ==> Recorded(task.stateData) == ids
      ensures old(Quiet()) ==> branches == old(branches)
      ensures old(Lucky()) ==> r.Ok?
    {
      hide StepSpawn, StepScan, StepSweep, StepMergeResults, StepOnEnter, StoreMerge, RecordPatch;
      var c := Await();
      ghost var before := Store();
      if c.ok {
        task := task.(stateData := StoreMerge(cfg.backend, task.stateData,
                                              RecordPatch(StrategyOf(StateOf(cfg, snap)), ids, c.now)));
        RecordReads(cfg, before, StrategyOf(StateOf(cfg, snap)), ids, c.now);
        r := Ok(());
      } else {
        r := Err(StoreFault);
      }
      Record(c, before);
    }

    /** Phase one: a task and an event for every branch, then the record of them; any failure leaves the tasks
        created so far unrecorded. On success the record names one branch per definition; undisturbed, these are new,
        distinct, running on their own inputs, and the only new ones. */
    method SpawnBranches(snap: Task, defs: seq<BranchDef>) returns (r: Outcome, ghost ids: seq<TaskId>)
      requires AtParallel(cfg, snap) && defs == StateOf(cfg, snap).branches.GetOr([])
      requires Valid() && pc == Some(Spawn(snap, []))
      modifies this
      ensures old(trace) <= trace && old(tick) <= tick
      ensures Valid() && pc == Some(Done(r))
      ensures r.Ok? ==> |ids| == |defs| && Recorded(task.stateData) == ids
      ensures old(Quiet()) && r.Ok? ==> SpawnedFor(old(branches), snap, defs, ids, branches)
    {
      hide BranchInput, Recorded, SpawnedFor, Step, Valid;
      var made: seq<TaskId> := [];
      ids := [];
      NoneSpawned(branches, snap, defs);
      for i := 0 to |defs|
        invariant old(trace) <= trace && old(tick) <= tick
        invariant Valid() && |made| == i && pc == Some(Spawn(snap, made))
        invariant old(Quiet()) ==> SpawnedFor(old(branches), snap, defs[..i], made, branches)
      {
        ghost var held := branches;
        var spawned := SpawnBranch(snap, defs[i], made);
        if spawned.Err? { return Err(spawned.error), made; }
        if old(Quiet()) { OneMoreSpawned(old(branches), snap, defs, i, made, held, spawned.value); }
        made := made + [spawned.value];
        var published := PublishBranch(snap, made);
        if published.Err? { return Err(published.error), made; }
      }
      assert defs[..|defs|] == defs;
      EndSpawn(snap, made);
      ids := made;
      r := RecordBranchTasks(snap, made);
    }

    ghost method EndSpawn(snap: Task, ids: seq<TaskId>)
      requires AtParallel(cfg, snap) && |ids| == |StateOf(cfg, snap).branches.GetOr([])|
      requires Valid() && pc == Some(Spawn(snap, ids))
      modifies this`pc, this`trace
      ensures old(trace) <= trace && old(tick) <= tick
      ensures Valid() && pc == Some(RecordBranches(snap, ids))
    {
      hide BranchInput, StepScan, StepSweep, StepOnEnter, StepMergeResults, MergeData;
      Decided(Choice(true, 0, ""));
    }

    ghost predicate AllUuids(ids: seq<TaskId>) {
      forall i :: 0 <= i < |ids| ==> cfg.isUuid(ids[i])
    }

    lemma UuidAt(ids: seq<TaskId>, k: nat)
      requires k < |ids|
      ensures AllUuids(ids) ==> cfg.isUuid(ids[k])
    {
    }

    /** `get_task` on the next recorded branch, and what the scan makes of it. */
    method ScanBranch(snap: Task, ids: seq<TaskId>, k: nat, scan: Scan)
      returns (r: Result<Scan, EngineError>, stopped: bool, now: int)
      requires AtParallel(cfg, snap) && k < |ids|
      requires Valid() && pc == Some(ScanBranches(snap, ids, k, scan))
      modifies this
      ensures old(trace) <= trace && old(tick) <= tick
      ensures Valid()
      ensures r.Ok? && !stopped ==> pc == Some(ScanBranches(snap, ids, k + 1, r.value))
      ensures r.Ok? && stopped ==> pc == Some(AfterScan(cfg, snap, ids, r.value, now))
      ensures r.Err? ==> pc == Some(Done(Err(r.error)))
      ensures stopped ==> StrategyOf(StateOf(cfg, snap)).FailFast?
      ensures old(Quiet()) ==> Store() == old(Store())
      ensures old(Quiet()) && r.Ok? ==>
                var branch := if ids[k] in branches then Some(branches[ids[k]]) else None;
                r.value == ScanOne(ids[k], branch, scan) && (stopped <==> StopsScan(StrategyOf(StateOf(cfg, snap)), branch))
      ensures old(Lucky()) && cfg.isUuid(ids[k]) ==> r.Ok?
    {
      hide StepSpawn, StepSweep, StepMergeResults, StepOnEnter, AfterScan, ScanOne, RecordPatch, MergeData;
      stopped := false;
      var c := Await();
      now := c.now;
      if !cfg.isUuid(ids[k]) {
        r := Err(BadBranchId);
      } else if !c.ok {
        r := Err(StoreFault);
      } else {
        var branch := if ids[k] in branches then Some(branches[ids[k]]) else None;
        r := Ok(ScanOne(ids[k], branch, scan));
        stopped := StopsScan(StrategyOf(StateOf(cfg, snap)), branch);
      }
      Decided(c);
    }

    method ReadClock(snap: Task, ids: seq<TaskId>, scan: Scan) returns (now: int)
      requires AtParallel(cfg, snap)
      requires Valid() && pc == Some(ScanBranches(snap, ids, |ids|, scan))
      modifies this
      ensures old(trace) <= trace && old(tick) <= tick
      ensures Valid() && pc == Some(AfterScan(cfg, snap, ids, scan, now))
      ensures old(Quiet()) ==> Store() == old(Store())
    {
      hide StepSpawn, StepSweep, StepMergeResults, StepOnEnter, AfterScan, ScanOne, RecordPatch, MergeData;
      var c := Await();
      now := c.now;
      Decided(c);
    }

    /** The scan over the recorded branches. Undisturbed, it holds what is there, unless a failed branch stops it. */
    method ScanRecorded(snap: Task, ids: seq<TaskId>) returns (r: Result<Scan, EngineError>, now: int)
      requires AtParallel(cfg, snap)
      requires Valid() && pc == Some(ScanBranches(snap, ids, 0, Scan(true, false, map[])))
      modifies this
      ensures old(trace) <= trace && old(tick) <= tick
      ensures Valid()
      ensures r.Ok? ==> pc == Some(AfterScan(cfg, snap, ids, r.value, now))
      ensures r.Err? ==> pc == Some(Done(Err(r.error)))
      ensures old(Quiet()) ==> Store() == old(Store())
      ensures old(Quiet()) && r.Ok? && (StrategyOf(StateOf(cfg, snap)).All? || AllDone(branches, ids)) ==>
                Scanned(branches, ids, r.value)
      ensures old(Lucky()) && AllUuids(ids) ==> r.Ok?
    {
      hide AfterScan, ScanOne, AllDone, AllUuids, Scanned, Valid, StopsScan, StrategyOf, StateOf;
      var scan, stopped := Scan(true, false, map[]), false;
      var k: nat := 0;
      now := 0;
      ScannedNone(branches, ids);
      while k < |ids| && !stopped
        invariant old(trace) <= trace && old(tick) <= tick
        invariant k <= |ids| && Valid()
        invariant pc == Some(if stopped then AfterScan(cfg, snap, ids, scan, now) else ScanBranches(snap, ids, k, scan))
        invariant stopped ==> StrategyOf(StateOf(cfg, snap)).FailFast?
        invariant old(Quiet()) ==> Store() == old(Store()) && Scanned(branches, ids[..k], scan)
        invariant old(Quiet()) && stopped ==> !AllDone(branches, ids)
        decreases |ids| - k
      {
        var read;
        UuidAt(ids, k);
        read, stopped, now := ScanBranch(snap, ids, k, scan);
        if read.Err? { return read, now; }
        if old(Quiet()) { ScannedOne(branches, ids, k, scan, StrategyOf(StateOf(cfg, snap))); }
        scan, k := read.value, k + 1;
      }
      if !stopped {
        assert ids[..|ids|] == ids;
        now := ReadClock(snap, ids, scan);
      }
      r := Ok(scan);
    }

    /** Phase two: scan the recorded branches, give up on the late ones, then join. Undisturbed and under `All`, the
        branch tasks afterwards are the same as before, or exactly the unfinished recorded ones have been failed and
        the parent has not moved. If all of them have completed and every operation succeeds, the parent joins; under
        `All` it stays as it is otherwise. */
    method CheckBranches(snap: Task, ids: seq<TaskId>) returns (r: Outcome)
      requires AtParallel(cfg, snap)
      requires Valid() && pc == Some(ScanBranches(snap, ids, 0, Scan(true, false, map[])))
      modifies this
      ensures old(trace) <= trace && old(tick) <= tick
      ensures Valid() && pc == Some(Done(r))
      ensures old(Quiet()) && r.Ok? && StrategyOf(StateOf(cfg, snap)).All? ==>
                || branches == old(branches)
                || (branches == GivenUp(old(branches), ids) && log == old(log))
      ensures old(Quiet()) && old(Lucky()) && AllUuids(ids) && AllDone(old(branches), ids) && old(task.version) == snap.version ==>
                r.Ok? && Store() == AfterJoin(cfg, old(Store()), self, snap, Outputs(old(branches), ids), false)
      ensures old(Quiet()) && StrategyOf(StateOf(cfg, snap)).All? && !AllDone(old(branches), ids) ==>
                log == old(log) && task == old(task)
    {
      hide AfterJoin, AllDone, AllUuids, Outputs, AfterScan, Collected, Truthful, CallsForJoin;
      var scanned, now := ScanRecorded(snap, ids);
      if scanned.Err? { return Err(scanned.error); }
      ghost var held := branches;
      r := JoinBranches(snap, ids, scanned.value, now);
      if old(Quiet()) && StrategyOf(StateOf(cfg, snap)).All? {
        SweptIsGivenUp(held, ids, scanned.value);
        if CallsForJoin(ids, scanned.value) { JoinOnlyWhenDone(held, ids, scanned.value); }
      }
    }

    method JoinBranches(snap: Task, ids: seq<TaskId>, scanned: Scan, now: int) returns (r: Outcome)
      requires AtParallel(cfg, snap)
      requires Valid() && pc == Some(AfterScan(cfg, snap, ids, scanned, now))
      modifies this
      ensures old(trace) <= trace && old(tick) <= tick
      ensures Valid() && pc == Some(Done(r))
      ensures old(Quiet()) && r.Ok? && StrategyOf(StateOf(cfg, snap)).All? ==>
                || branches == old(branches)
                || (branches == Swept(old(branches), ids, |ids|, scanned.results) && log == old(log))
      ensures old(Quiet()) && old(Lucky()) && scanned.allCompleted && !scanned.anyFailed && old(task.version) == snap.version ==>
                r.Ok? && Store() == AfterJoin(cfg, old(Store()), self, snap, scanned.results, false)
      ensures old(Quiet()) && StrategyOf(StateOf(cfg, snap)).All? && !CallsForJoin(ids, scanned) ==>
                log == old(log) && task == old(task)
    {
      hide TimedOut, Swept, AfterJoin;
      var scan := scanned;
      if !scan.allCompleted && TimedOut(StateOf(cfg, snap), snap, now) {
        var swept := SweepBranches(snap, ids, scan);
        if swept.Err? { return Err(swept.error); }
        scan := swept.value;
      }
      if scan.anyFailed && StrategyOf(StateOf(cfg, snap)).FailFast? {
        r := JoinWith(snap, scan.results, true);
      } else if scan.allCompleted && !scan.anyFailed {
        r := JoinWith(snap, scan.results, false);
      } else {
        r := Ok(());
      }
    }

    /** The timeout sweep. Undisturbed, it fails exactly the recorded branches that have no result; if there was one,
        the join will not succeed. */
    method SweepBranches(snap: Task, ids: seq<TaskId>, scanned: Scan) returns (r: Result<Scan, EngineError>)
      requires AtParallel(cfg, snap)
      requires Valid() && pc == Some(Sweep(snap, ids, 0, scanned))
      modifies this
      ensures old(trace) <= trace && old(tick) <= tick
      ensures Valid()
      ensures r.Ok? ==> pc == Some(AfterSweep(cfg, snap, r.value))
      ensures r.Err? ==> pc == Some(Done(Err(r.error)))
      ensures old(Quiet()) ==> log == old(log) && task == old(task)
      ensures r.Ok? && !r.value.anyFailed ==> CallsForJoin(ids, scanned)
      ensures old(Quiet()) && r.Ok? ==> branches == Swept(old(branches), ids, |ids|, scanned.results)
      ensures r.Ok? && !r.value.anyFailed ==> branches == old(branches) || !old(Quiet())
    {
      hide AfterSweep, SweepScan, Swept, KeysAdded, Valid;
      var scan := scanned;
      SweptNone(branches, ids, scanned.results);
      KeysNone(ids, scanned.results);
      for k := 0 to |ids|
        invariant old(trace) <= trace && old(tick) <= tick
        invariant Valid() && pc == Some(Sweep(snap, ids, k, scan))
        invariant old(Quiet()) ==> log == old(log) && task == old(task)
        invariant !scan.anyFailed ==> scan == scanned && forall i :: 0 <= i < k ==> ids[i] in scan.results
        invariant old(Quiet()) ==> branches == Swept(old(branches), ids, k, scanned.results)
        invariant old(Quiet()) && !scan.anyFailed ==> branches == old(branches)
        invariant KeysAdded(scan.results, scanned.results, ids, k)
      {
        var swept := SweepBranch(snap, ids, k, scan);
        if swept.Err? { return Err(swept.error); }
        SweptKeys(old(branches), ids, k, scanned.results);
        SweptOne(old(branches), ids, k, scanned.results, scan.results);
        scan := swept.value;
      }
      EndSweep(snap, ids, scan);
      return Ok(scan.(allCompleted := true));
    }

    ghost method EndSweep(snap: Task, ids: seq<TaskId>, scan: Scan)
      requires AtParallel(cfg, snap)
      requires Valid() && pc == Some(Sweep(snap, ids, |ids|, scan))
      modifies this`pc, this`trace
      ensures old(trace) <= trace && old(tick) <= tick
      ensures Valid() && pc == Some(AfterSweep(cfg, snap, scan.(allCompleted := true)))
    {
      hide StepSpawn, StepScan, StepMergeResults, StepOnEnter, AfterSweep, RecordPatch, MergeData;
      Decided(Choice(true, 0, ""));
    }

    method SweepBranch(snap: Task, ids: seq<TaskId>, k: nat, scan: Scan) returns (r: Result<Scan, EngineError>)
      requires AtParallel(cfg, snap) && k < |ids|
      requires Valid() && pc == Some(Sweep(snap, ids, k, scan))
      modifies this
      ensures old(trace) <= trace && old(tick) <= tick
      ensures Valid()
      ensures r.Ok? ==> pc == Some(Sweep(snap, ids, k + 1, r.value))
      ensures r.Err? ==> pc == Some(Done(Err(r.error)))
      ensures old(Quiet()) ==> log == old(log) && task == old(task)
      ensures r.Ok? ==> r.value.results.Keys == scan.results.Keys + {ids[k]}
      ensures r.Ok? && ids[k] in scan.results ==> r.value == scan
      ensures r.Ok? && ids[k] !in scan.results ==> r.value.anyFailed
      ensures old(Quiet()) && r.Ok? && ids[k] in scan.results ==> branches == old(branches)
      ensures old(Quiet()) && r.Ok? && ids[k] !in scan.results ==>
                ids[k] in old(branches) &&
                branches == old(branches)[ids[k] := old(branches)[ids[k]].(status := Failed(TIMEOUT_MESSAGE))]
    {
      hide Step, AfterSweep;
      if ids[k] in scan.results {
        SweepStep(cfg, Store(), self, snap, ids, k, scan, Choice(true, 0, ""));
        Decided(Choice(true, 0, ""));
        return Ok(scan);
      }
      var c := Await();
      ghost var before := Store();
      SweepStep(cfg, before, self, snap, ids, k, scan, c);
      if !cfg.isUuid(ids[k]) {
        r := Err(BadBranchId);
      } else if !c.ok {
        r := Err(StoreFault);
      } else if ids[k] !in branches {
        r := Err(MissingTask);
      } else {
        branches := branches[ids[k] := branches[ids[k]].(status := Failed(TIMEOUT_MESSAGE))];
        r := Ok(SweepScan(ids[k], scan));
      }
      Record(c, before);
    }

    /** The join: only if the task is still at the version that was read, merge the results and take the first
        automatic transition. */
    method JoinWith(snap: Task, results: Results, failed: bool) returns (r: Outcome)
      requires AtParallel(cfg, snap)
      requires Valid() && pc == Some(CheckVersion(snap, results, failed))
      modifies this
      ensures old(trace) <= trace && old(tick) <= tick
      ensures old(Quiet()) ==> branches == old(branches)
      ensures old(Quiet()) && old(Lucky()) && old(task.version) == snap.version ==>
                r.Ok? && Store() == AfterJoin(cfg, old(Store()), self, snap, results, failed)
      ensures Valid() && pc == Some(Done(r))
    {
      hide CommitMove, JoinOk, MergeData, ResultsPatch, Valid, AfterMove, JoinNext;
      var same := StillAt(snap, results, failed);
      if same.Err? { return Err(same.error); }
      if !same.value { return Ok(()); }
      var merged := MergeBranchResults(snap, results, failed);
      if merged.Err? { return Err(merged.error); }
      MergeKeepsVersion(cfg, old(Store()), ResultsPatch(results, failed));
      r := MoveOn(snap, results, failed);
    }

    /** Re-reads the task: is it still at the version of the snapshot? */
    method StillAt(snap: Task, results: Results, failed: bool) returns (r: Result<bool, EngineError>)
      requires Valid() && pc == Some(CheckVersion(snap, results, failed))
      modifies this
      ensures old(trace) <= trace && old(tick) <= tick
      ensures Valid()
      ensures old(Quiet()) ==> Store() == old(Store())
      ensures old(Quiet()) && old(Lucky()) ==> r == Ok(old(task.version) == snap.version)
      ensures r == Ok(true) ==> pc == Some(MergeResults(snap, results, failed))
      ensures r == Ok(false) ==> pc == Some(Done(Ok(())))
      ensures r.Err? ==> pc == Some(Done(Err(r.error)))
    {
      hide StepSpawn, StepScan, StepSweep, StepOnEnter, StepMergeResults;
      var c := Await();
      r := if c.ok then Ok(task.version == snap.version) else Err(StoreFault);
      Decided(c);
    }

    /** Takes the first automatic transition after the results are merged. */
    method MoveOn(snap: Task, results: Results, failed: bool) returns (r: Outcome)
      requires AtParallel(cfg, snap)
      requires Valid() && pc == Some(JoinNext(cfg, snap, results, failed))
      modifies this
      ensures old(trace) <= trace && old(tick) <= tick
      ensures old(Quiet()) ==> branches == old(branches)
      ensures old(Quiet()) && old(Lucky()) && old(task.version) == snap.version ==>
                r.Ok? && Store() == match FirstAuto(StateOf(cfg, snap).transitions, 0)
                                    case None => old(Store())
                                    case Some(k) => AfterMove(cfg, old(Store()), self, JoinMove(cfg, snap, k, results, failed))
      ensures Valid() && pc == Some(Done(r))
    {
      hide CommitMove, Entered, Valid;
      match FirstAuto(StateOf(cfg, snap).transitions, 0) {
        case None => return Ok(());
        case Some(k) =>
          var m := JoinMove(cfg, snap, k, results, failed);
          WholeEntry(cfg, m);
          var done, _, _, _ := Transition(m);
          return if done.Ok? then Ok(()) else Err(done.error);
      }
    }

    method MergeBranchResults(snap: Task, results: Results, failed: bool) returns (r: Outcome)
      requires AtParallel(cfg, snap)
      requires Valid() && pc == Some(MergeResults(snap, results, failed))
      modifies this
      ensures old(trace) <= trace && old(tick) <= tick
      ensures old(Quiet()) ==> branches == old(branches)
      ensures old(Quiet()) && r.Ok? ==> Store() == MergeData(cfg, old(Store()), ResultsPatch(results, failed))
      ensures old(Lucky()) ==> r.Ok?
      ensures Valid()
      ensures r.Ok? ==> pc == Some(JoinNext(cfg, snap, results, failed))
      ensures r.Err? ==> pc == Some(Done(Err(r.error)))
    {
      hide StepSpawn, StepScan, StepSweep, StepOnEnter, StoreMerge, RecordPatch, ResultsPatch;
      var c := Await();
      ghost var before := Store();
      if c.ok {
        task := task.(stateData := StoreMerge(cfg.backend, task.stateData, ResultsPatch(results, failed)));
        r := Ok(());
      } else {
        r := Err(StoreFault);
      }
      Record(c, before);
    }
  }
}
