/** Which branches are spawned, which are recorded, and when the two are the same. */
module FlowSpawn {
  import opened Wrappers
  import opened JsonValues
  import opened Condition
  import opened Flow
  import opened FlowEngine
  import opened FlowSafety
  import opened FlowTheorems
  import opened FlowHistory
  import opened FlowJoin

  // ── the fork record ──

  /** A patch that leaves the fork record alone. */
  predicate Spares(patch: Fields) {
    "_parallel" !in patch
  }

  ghost predicate SparingAction(a: Action) {
    a.AgentMerge? ==> Spares(a.patch)
  }

  predicate SparingActions(actions: seq<OnEnterAction>) {
    forall k :: 0 <= k < |actions| && actions[k].SetVariable? ==> actions[k].key != "_parallel"
  }

  /** No state sets the fork record itself when it is entered. */
  ghost predicate SparingFlow(def: FlowDef) {
    forall s :: s in def.states ==> SparingActions(def.states[s].onEnter.GetOr([]))
  }

  lemma SparingMerge(cfg: Config, s: Shared, patch: Fields)
    requires Spares(patch)
    ensures Recorded(MergeData(cfg, s, patch).task.stateData) == Recorded(s.task.stateData)
  {
  }

  lemma {:induction false} TextsRead(ids: seq<TaskId>)
    ensures ItemTexts(seq(|ids|, i requires 0 <= i < |ids| => Str(ids[i]))) == Some(ids)
  {
    var items := seq(|ids|, i requires 0 <= i < |ids| => Str(ids[i]));
    if ids != [] {
      TextsRead(ids[1..]);
      assert items[1..] == seq(|ids[1..]|, i requires 0 <= i < |ids[1..]| => Str(ids[1..][i]));
      assert [ids[0]] + ids[1..] == ids;
    }
  }

  /** Recording the spawned branches makes them the recorded ones, under either store. */
  lemma RecordReads(cfg: Config, s: Shared, strategy: JoinStrategy, ids: seq<TaskId>, now: int)
    ensures Recorded(MergeData(cfg, s, RecordPatch(strategy, ids, now)).task.stateData) == ids
  {
    var patch := RecordPatch(strategy, ids, now);
    var record, before := patch["_parallel"].fields, Existing(s.task.stateData, "_parallel");
    assert Merged(before, Obj(record)).Obj? && "branch_tasks" in Merged(before, Obj(record)).fields;
    if before.Obj? {
      assert Merged(Existing(before.fields, "branch_tasks"), record["branch_tasks"]) == record["branch_tasks"];
    }
    assert Merged(before, Obj(record)).fields["branch_tasks"] == record["branch_tasks"];
    var data' := MergeData(cfg, s, patch).task.stateData;
    TextsRead(ids);
    var items := seq(|ids|, i requires 0 <= i < |ids| => Str(ids[i]));
    assert data'["_parallel"].Obj? && data'["_parallel"].fields["branch_tasks"] == Arr(items);
  }

  /** And so does the time of the spawning, whatever it is and whatever was recorded before. */
  lemma SpawnedAtReads(cfg: Config, s: Shared, strategy: JoinStrategy, ids: seq<TaskId>, now: int)
    ensures SpawnedAt(MergeData(cfg, s, RecordPatch(strategy, ids, now)).task.stateData) == Some(now)
  {
    var patch := RecordPatch(strategy, ids, now);
    var record, before := patch["_parallel"].fields, Existing(s.task.stateData, "_parallel");
    assert Merged(before, Obj(record)).Obj? && "spawned_at" in Merged(before, Obj(record)).fields;
    if before.Obj? {
      assert Merged(Existing(before.fields, "spawned_at"), Num(now)) == Num(now);
    }
    assert Merged(before, Obj(record)).fields["spawned_at"] == Num(now);
    assert MergeData(cfg, s, patch).task.stateData["_parallel"].fields["spawned_at"] == Num(now);
  }

  /** Workers that are spawning have branches to spawn, and record at least one. */
  ghost predicate SpawnOk(cfg: Config, pc: Pc) {
    match pc
    case Spawn(snap, _) => AtParallel(cfg, snap) && StateOf(cfg, snap).branches.GetOr([]) != []
    case AnnounceBranch(snap, _) => AtParallel(cfg, snap) && StateOf(cfg, snap).branches.GetOr([]) != []
    case RecordBranches(_, ids) => ids != []
    case _ => true
  }

  lemma StepSpawns(cfg: Config, s: Shared, w: WorkerId, pc: Pc, c: Choice)
    requires SpawnOk(cfg, pc)
    ensures SpawnOk(cfg, Step(cfg, s, w, pc, c).1)
  {
    hide Recorded, Decide, MergeData, RecordPatch, ResultsPatch, BranchInput, CommitMove, ScanOne, SweepScan, TimedOut;
  }

  /** Only the step that records branches changes the record. */
  lemma StepRecords(cfg: Config, s: Shared, w: WorkerId, pc: Pc, c: Choice)
    requires SparingFlow(cfg.def)
    ensures Recorded(Step(cfg, s, w, pc, c).0.task.stateData)
         == if pc.RecordBranches? && c.ok && AtParallel(cfg, pc.snap) then pc.ids else Recorded(s.task.stateData)
  {
    hide Recorded, Decide, MergeData, RecordPatch, ResultsPatch, BranchInput, AfterRead, AfterFlowRead, AfterFailure,
         AfterScan, AfterSweep, ScanOne, SweepScan, StatusFor;
    match pc {
      case OnEnter(m, k) =>
        var actions := if m.target in cfg.def.states then cfg.def.states[m.target].onEnter.GetOr([]) else [];
        if k < |actions| && actions[k].SetVariable? {
          SparingMerge(cfg, s, map[actions[k].key := actions[k].value]);
        }
      case RecordBranches(snap, ids) =>
        if AtParallel(cfg, snap) { RecordReads(cfg, s, StrategyOf(StateOf(cfg, snap)), ids, c.now); }
      case MergeResults(_, results, failed) =>
        ResultsSpare(results, failed);
        SparingMerge(cfg, s, ResultsPatch(results, failed));
      case _ =>
    }
  }

  lemma ResultsSpare(results: Results, failed: bool)
    ensures Spares(ResultsPatch(results, failed))
  {
  }

  ghost predicate AllSpawnOk(cfg: Config, sys: Sys) {
    forall w :: w in sys.workers ==> SpawnOk(cfg, sys.workers[w])
  }

  lemma {:induction false} SpawnsReach(cfg: Config, actions: seq<Action>)
    ensures AllSpawnOk(cfg, Reach(cfg, actions))
    decreases |actions|
  {
    if actions != [] {
      hide Step, SpawnOk, MergeData;
      var n := |actions| - 1;
      SpawnsReach(cfg, actions[..n]);
      var sys, a := Reach(cfg, actions[..n]), actions[n];
      if a.Act? && a.w in sys.workers { StepSpawns(cfg, sys.shared, a.w, sys.workers[a.w], a.choice); }
      LaunchSpawns(cfg, a);
    }
  }

  lemma LaunchSpawns(cfg: Config, a: Action)
    ensures SpawnOk(cfg, ReadTask(0)) && (a.LaunchForced? ==> SpawnOk(cfg, ReadForced(a.target)))
  {
  }

  lemma SparingApply(cfg: Config, sys: Sys, a: Action)
    requires SparingFlow(cfg.def) && AllSpawnOk(cfg, sys) && SparingAction(a)
    requires Recorded(sys.shared.task.stateData) != []
    ensures Recorded(Apply(cfg, sys, a).shared.task.stateData) != []
  {
    hide Step, MergeData, Recorded;
    if a.Act? && a.w in sys.workers { StepRecords(cfg, sys.shared, a.w, sys.workers[a.w], a.choice); }
    if a.AgentMerge? { SparingMerge(cfg, sys.shared, a.patch); }
  }

  lemma {:induction false} RecordStays(cfg: Config, actions: seq<Action>, more: seq<Action>)
    requires SparingFlow(cfg.def) && Recorded(Reach(cfg, actions).shared.task.stateData) != []
    requires forall i :: 0 <= i < |more| ==> SparingAction(more[i])
    ensures Recorded(Reach(cfg, actions + more).shared.task.stateData) != []
    decreases |more|
  {
    if more == [] {
      assert actions + more == actions;
    } else {
      hide Reach, Apply, Recorded, SparingAction, SparingFlow, SpawnOk;
      var n := |more| - 1;
      RecordStays(cfg, actions, more[..n]);
      var before := actions + more[..n];
      SpawnsReach(cfg, before);
      SparingApply(cfg, Reach(cfg, before), more[n]);
      OneMore(cfg, before, more[n]);
      assert actions + more == before + [more[n]];
    }
  }

  /** Once branches are recorded, and as long as nobody else writes the fork record, a worker that reads the task after
      that, in this or any later Parallel state, joins on recorded branches instead of spawning that state's own. A
      worker that had read it before goes on spawning. */
  lemma SpawnedOnce(cfg: Config, actions: seq<Action>, more: seq<Action>)
    requires SparingFlow(cfg.def) && Recorded(Reach(cfg, actions).shared.task.stateData) != []
    requires forall i :: 0 <= i < |more| ==> SparingAction(more[i])
    ensures var t := Reach(cfg, actions + more).shared.task;
            Recorded(t.stateData) != [] && forall i :: !AfterRead(cfg, i, t).Spawn?
  {
    RecordStays(cfg, actions, more);
  }

  // ── clean starts ──

  predicate Spawning(pc: Pc) {
    pc.Spawn? || pc.AnnounceBranch? || pc.RecordBranches?
  }

  /** The worker reads a task without recorded branches and begins to spawn. */
  predicate Starts(cfg: Config, sys: Sys, a: Action) {
    && a.Act? && a.w in sys.workers && !Spawning(sys.workers[a.w])
    && Spawning(Step(cfg, sys.shared, a.w, sys.workers[a.w], a.choice).1)
  }

  ghost predicate StartsAt(cfg: Config, actions: seq<Action>, n: nat) {
    n < |actions| && Starts(cfg, Reach(cfg, actions[..n]), actions[n])
  }

  ghost predicate SparingRun(cfg: Config, actions: seq<Action>) {
    SparingFlow(cfg.def) && forall i :: 0 <= i < |actions| ==> SparingAction(actions[i])
  }

  /** These are the branches that were spawned, each once. */
  ghost predicate AreSpawned(branches: map<TaskId, BranchTask>, ids: seq<TaskId>) {
    Distinct(ids) && forall id :: id in branches <==> id in ids
  }

  ghost predicate NoneSpawning(sys: Sys) {
    forall w :: w in sys.workers ==> !Spawning(sys.workers[w])
  }

  /** While somebody spawns nothing is recorded and that worker holds all branches; afterwards the record does. */
  ghost predicate SpawnState(sys: Sys) {
    var s := sys.shared;
    && (forall v, w :: v in sys.workers && w in sys.workers && Spawning(sys.workers[v]) && Spawning(sys.workers[w]) ==>
          v == w)
    && (forall w :: w in sys.workers && Spawning(sys.workers[w]) ==>
          Recorded(s.task.stateData) == [] && AreSpawned(s.branches, sys.workers[w].ids))
    && (Recorded(s.task.stateData) != [] ==> AreSpawned(s.branches, Recorded(s.task.stateData)))
  }

  /** Nobody is spawning and there are no branches. */
  ghost predicate Untouched(sys: Sys) {
    NoneSpawning(sys) && Recorded(sys.shared.task.stateData) == [] && sys.shared.branches == map[]
  }

  /** Workers begin to spawn only while nobody else is spawning and no branch exists. An attempt that fails before its
      first branch does no harm; one that leaves a branch behind does. Once branches are recorded nobody begins
      (`RecordedStarts`), so this is about what happens before the first record. */
  ghost predicate CleanStarts(cfg: Config, actions: seq<Action>) {
    forall i: nat :: StartsAt(cfg, actions, i) ==> Untouched(Reach(cfg, actions[..i]))
  }

  lemma StepBranches(cfg: Config, s: Shared, w: WorkerId, pc: Pc, c: Choice)
    ensures var (s', pc') := Step(cfg, s, w, pc, c);
            && (pc.Spawn? && pc'.AnnounceBranch? ==>
                  c.id !in s.branches && pc'.ids == pc.ids + [c.id] && s'.branches.Keys == s.branches.Keys + {c.id})
            && (!(pc.Spawn? && pc'.AnnounceBranch?) ==> s'.branches.Keys == s.branches.Keys)
  {
    hide Recorded, Decide, MergeData, RecordPatch, ResultsPatch, BranchInput, AfterRead, AfterFailure, AfterScan,
         AfterSweep, CommitMove, StepOnEnter;
    EnterBranches(cfg, s, pc, c);
    MergeBranches(cfg, s);
    CommitBranches(cfg, s, w, pc);
  }

  lemma EnterBranches(cfg: Config, s: Shared, pc: Pc, c: Choice)
    ensures pc.OnEnter? ==> StepOnEnter(cfg, s, pc.move, pc.next, c).0.branches == s.branches
    ensures pc.OnEnter? ==> !Spawning(StepOnEnter(cfg, s, pc.move, pc.next, c).1)
  {
    hide StoreMerge;
  }

  lemma MergeBranches(cfg: Config, s: Shared)
    ensures forall patch :: MergeData(cfg, s, patch).branches == s.branches
  {
  }

  lemma CommitBranches(cfg: Config, s: Shared, w: WorkerId, pc: Pc)
    ensures pc.Commit? ==> CommitMove(cfg, s, w, pc.move).branches == s.branches
  {
  }

  /** How a step of a spawning worker goes on, and how spawning begins. */
  lemma StepSpawning(cfg: Config, s: Shared, w: WorkerId, pc: Pc, c: Choice)
    ensures var (s', pc') := Step(cfg, s, w, pc, c);
            && (Spawning(pc) && Spawning(pc') && !(pc.Spawn? && pc'.AnnounceBranch?) ==> pc'.ids == pc.ids)
            && (!Spawning(pc) && Spawning(pc') ==>
                  pc.ReadTask? && pc'.ids == [] && Recorded(s.task.stateData) == [] && s' == s)
            && (pc.RecordBranches? ==> !Spawning(pc'))
  {
    hide Recorded, Decide, MergeData, RecordPatch, ResultsPatch, BranchInput, AfterFailure, AfterScan, AfterSweep,
         CommitMove, StepOnEnter, ScanOne, SweepScan;
    AfterFailureSpawning(cfg, pc);
    EnterBranches(cfg, s, pc, c);
  }

  lemma AfterFailureSpawning(cfg: Config, pc: Pc)
    ensures pc.Commit? || pc.Announce? || pc.OnEnter? ==>
              forall e, lost :: !Spawning(AfterFailure(cfg, pc.move, e, lost))
    ensures forall snap, scan :: AtParallel(cfg, snap) ==> !Spawning(AfterSweep(cfg, snap, scan))
    ensures forall snap, ids, scan, now :: AtParallel(cfg, snap) ==> !Spawning(AfterScan(cfg, snap, ids, scan, now))
  {
  }

  lemma PushSpawned(branches: map<TaskId, BranchTask>, branches': map<TaskId, BranchTask>, ids: seq<TaskId>, id: TaskId)
    requires AreSpawned(branches, ids) && id !in branches && branches'.Keys == branches.Keys + {id}
    ensures AreSpawned(branches', ids + [id])
  {
    assert forall x :: x in branches' <==> x in branches'.Keys;
    assert forall x :: x in branches <==> x in branches.Keys;
  }

  lemma SameSpawned(branches: map<TaskId, BranchTask>, branches': map<TaskId, BranchTask>, ids: seq<TaskId>)
    requires AreSpawned(branches, ids) && branches'.Keys == branches.Keys
    ensures AreSpawned(branches', ids)
  {
    assert forall x :: x in branches' <==> x in branches'.Keys;
    assert forall x :: x in branches <==> x in branches.Keys;
  }

  /** A worker's step. A start is clean. */
  lemma ActSpawnState(cfg: Config, sys: Sys, w: WorkerId, c: Choice)
    requires SparingFlow(cfg.def) && SpawnState(sys) && w in sys.workers && SpawnOk(cfg, sys.workers[w])
    requires Starts(cfg, sys, Act(w, c)) ==> Untouched(sys)
    ensures SpawnState(Apply(cfg, sys, Act(w, c)))
    ensures Recorded(sys.shared.task.stateData) != [] ==>
              Recorded(Apply(cfg, sys, Act(w, c)).shared.task.stateData) == Recorded(sys.shared.task.stateData)
  {
    hide Step, Recorded, AreSpawned, SpawnOk;
    var pc, s := sys.workers[w], sys.shared;
    var (s', pc') := Step(cfg, s, w, pc, c);
    StepRecords(cfg, s, w, pc, c);
    StepBranches(cfg, s, w, pc, c);
    StepSpawning(cfg, s, w, pc, c);
    if Spawning(pc) {
      if pc.Spawn? && pc'.AnnounceBranch? {
        PushSpawned(s.branches, s'.branches, pc.ids, c.id);
      } else {
        SameSpawned(s.branches, s'.branches, pc.ids);
      }
    } else if Spawning(pc') {
      NothingSpawned(s.branches);
    } else {
      forall v | v in sys.workers && Spawning(sys.workers[v]) ensures AreSpawned(s'.branches, sys.workers[v].ids) {
        SameSpawned(s.branches, s'.branches, sys.workers[v].ids);
      }
      if Recorded(s.task.stateData) != [] {
        SameSpawned(s.branches, s'.branches, Recorded(s.task.stateData));
      }
    }
  }

  lemma NothingSpawned(branches: map<TaskId, BranchTask>)
    ensures branches == map[] ==> AreSpawned(branches, [])
  {
  }

  lemma EnvironmentSpawnState(cfg: Config, sys: Sys, a: Action)
    requires SpawnState(sys) && SparingAction(a) && (a.Act? ==> a.w !in sys.workers)
    ensures SpawnState(Apply(cfg, sys, a))
    ensures Recorded(Apply(cfg, sys, a).shared.task.stateData) == Recorded(sys.shared.task.stateData)
  {
    hide MergeData, Recorded, AreSpawned;
    var s, s' := sys.shared, Apply(cfg, sys, a).shared;
    if a.AgentMerge? { SparingMerge(cfg, s, a.patch); MergeBranches(cfg, s); }
    assert s'.branches.Keys == s.branches.Keys;
    forall v | v in sys.workers && Spawning(sys.workers[v]) ensures AreSpawned(s'.branches, sys.workers[v].ids) {
      SameSpawned(s.branches, s'.branches, sys.workers[v].ids);
    }
    if Recorded(s.task.stateData) != [] {
      SameSpawned(s.branches, s'.branches, Recorded(s.task.stateData));
    }
  }

  lemma StartsEarlier(cfg: Config, actions: seq<Action>, n: nat, i: nat)
    requires n <= |actions| && i < n
    ensures StartsAt(cfg, actions[..n], i) == StartsAt(cfg, actions, i)
  {
    assert actions[..n][..i] == actions[..i];
  }

  /** Along a run whose starts are clean. */
  lemma {:induction false} RunSpawnState(cfg: Config, actions: seq<Action>)
    requires SparingRun(cfg, actions) && CleanStarts(cfg, actions)
    ensures SpawnState(Reach(cfg, actions))
    decreases |actions|
  {
    if actions == [] {
      NothingYet(cfg);
    } else {
      hide StartsAt, Untouched, SpawnState, SparingFlow, SparingAction, Reach;
      var n := |actions| - 1;
      var before, a := actions[..n], actions[n];
      assert before + [a] == actions;
      CleanPrefix(cfg, before, [a]);
      SparingPrefix(cfg, before, [a]);
      RunSpawnState(cfg, before);
      OneMoreSpawnState(cfg, before, a);
    }
  }

  lemma OneMoreSpawnState(cfg: Config, before: seq<Action>, a: Action)
    requires SparingRun(cfg, before) && SparingAction(a) && CleanStarts(cfg, before + [a])
    requires SpawnState(Reach(cfg, before))
    ensures SpawnState(Reach(cfg, before + [a]))
  {
    hide Starts, Untouched, SpawnState, Apply, SparingFlow, SparingAction, Reach, CleanStarts;
    var sys := Reach(cfg, before);
    LastStart(cfg, before, a);
    OneMore(cfg, before, a);
    SpawnsReach(cfg, before);
    if a.Act? && a.w in sys.workers {
      ActSpawnState(cfg, sys, a.w, a.choice);
    } else {
      EnvironmentSpawnState(cfg, sys, a);
    }
  }

  lemma LastStart(cfg: Config, before: seq<Action>, a: Action)
    requires CleanStarts(cfg, before + [a])
    ensures Starts(cfg, Reach(cfg, before), a) ==> Untouched(Reach(cfg, before))
  {
    hide Starts, Reach;
    var actions, n := before + [a], |before|;
    assert actions[..n] == before;
    assert StartsAt(cfg, actions, n) == Starts(cfg, Reach(cfg, before), a);
  }

  lemma NothingYet(cfg: Config)
    ensures Reach(cfg, []) == Init(cfg) && SpawnState(Init(cfg))
  {
  }

  lemma {:induction false} RecordFixed(cfg: Config, actions: seq<Action>, more: seq<Action>)
    requires SparingRun(cfg, actions + more) && CleanStarts(cfg, actions + more)
    requires Recorded(Reach(cfg, actions).shared.task.stateData) != []
    ensures Recorded(Reach(cfg, actions + more).shared.task.stateData)
         == Recorded(Reach(cfg, actions).shared.task.stateData)
    decreases |more|
  {
    if more == [] {
      assert actions + more == actions;
    } else {
      hide StartsAt, SparingFlow, SparingAction, Recorded, Reach;
      var n := |more| - 1;
      var before := actions + more[..n];
      assert before + [more[n]] == actions + more;
      CleanPrefix(cfg, before, [more[n]]);
      SparingPrefix(cfg, before, [more[n]]);
      RecordFixed(cfg, actions, more[..n]);
      assert (actions + more)[|actions| + n] == more[n];
      OneMoreFixed(cfg, before, more[n]);
    }
  }

  lemma OneMoreFixed(cfg: Config, before: seq<Action>, a: Action)
    requires SparingRun(cfg, before) && CleanStarts(cfg, before) && SparingAction(a)
    requires Recorded(Reach(cfg, before).shared.task.stateData) != []
    ensures Recorded(Reach(cfg, before + [a]).shared.task.stateData)
         == Recorded(Reach(cfg, before).shared.task.stateData)
  {
    hide Starts, Untouched, SpawnState, Apply, SparingFlow, SparingAction, Recorded, Reach, CleanStarts;
    RunSpawnState(cfg, before);
    SpawnsReach(cfg, before);
    OneMore(cfg, before, a);
    var sys := Reach(cfg, before);
    if a.Act? && a.w in sys.workers {
      RecordedStarts(cfg, sys, a);
      ActSpawnState(cfg, sys, a.w, a.choice);
    } else {
      EnvironmentSpawnState(cfg, sys, a);
    }
  }

  lemma CleanPrefix(cfg: Config, actions: seq<Action>, more: seq<Action>)
    requires CleanStarts(cfg, actions + more)
    ensures CleanStarts(cfg, actions)
  {
    hide Starts, Reach, Untouched;
    assert (actions + more)[..|actions|] == actions;
    forall i: nat | StartsAt(cfg, actions, i) ensures Untouched(Reach(cfg, actions[..i])) {
      StartsEarlier(cfg, actions + more, |actions|, i);
      assert (actions + more)[..i] == actions[..i];
    }
  }

  lemma RecordedStarts(cfg: Config, sys: Sys, a: Action)
    requires Recorded(sys.shared.task.stateData) != []
    ensures !Starts(cfg, sys, a)
  {
    hide Step, Recorded;
    if a.Act? && a.w in sys.workers { StepSpawning(cfg, sys.shared, a.w, sys.workers[a.w], a.choice); }
  }

  /** With clean starts, and nobody else writing the fork record: once there is a record it names exactly the branches
      ever spawned, each once, and it stays the same for the rest of the run. */
  lemma RecordIsSpawned(cfg: Config, actions: seq<Action>, more: seq<Action>)
    requires SparingRun(cfg, actions + more) && CleanStarts(cfg, actions + more)
    requires Recorded(Reach(cfg, actions).shared.task.stateData) != []
    ensures var s, s' := Reach(cfg, actions).shared, Reach(cfg, actions + more).shared;
            && Recorded(s'.task.stateData) == Recorded(s.task.stateData)
            && AreSpawned(s'.branches, Recorded(s'.task.stateData))
            && s'.branches.Keys == s.branches.Keys
  {
    hide Reach, Recorded, StartsAt, SparingFlow, SparingAction, SpawnState;
    CleanPrefix(cfg, actions, more);
    SparingPrefix(cfg, actions, more);
    RecordFixed(cfg, actions, more);
    RunSpawnState(cfg, actions + more);
    RunSpawnState(cfg, actions);
    RecordHolds(Reach(cfg, actions));
    RecordHolds(Reach(cfg, actions + more));
    var s, s' := Reach(cfg, actions).shared, Reach(cfg, actions + more).shared;
    assert forall id :: id in s.branches <==> id in s'.branches;
  }

  lemma RecordHolds(sys: Sys)
    requires SpawnState(sys) && Recorded(sys.shared.task.stateData) != []
    ensures AreSpawned(sys.shared.branches, Recorded(sys.shared.task.stateData))
  {
  }

  lemma SparingPrefix(cfg: Config, actions: seq<Action>, more: seq<Action>)
    requires SparingRun(cfg, actions + more)
    ensures SparingRun(cfg, actions)
  {
    assert forall i :: 0 <= i < |actions| ==> actions[i] == (actions + more)[i];
  }

  /** So under `All`, with clean starts, the parent leaves a Parallel state only when every branch that was ever spawned
      had been seen completed, and the results hold exactly one entry per spawned branch. */
  lemma JoinsEverySpawned(cfg: Config, actions: seq<Action>, i: nat) returns (n: nat)
    requires Registered(cfg) && SparingRun(cfg, actions) && CleanStarts(cfg, actions)
    requires i < |Reach(cfg, actions).shared.log|
    requires var m := Reach(cfg, actions).shared.log[i].move;
             AtParallel(cfg, m.snap) && StrategyOf(StateOf(cfg, m.snap)).All? && !m.cause.Forced?
    ensures n < |actions| && |Reach(cfg, actions[..n]).shared.log| == i
    ensures var s := Reach(cfg, actions).shared;
            var m := s.log[i].move;
            && m.cause.Joined? && m.cause.results.Keys == s.branches.Keys && s.branches != map[]
            && forall id :: id in s.branches ==>
                 && m.cause.results[id].Finished?
                 && CompletedSeen(cfg, actions[..n], m.snap, id, m.cause.results[id].output)
  {
    hide Reach, Recorded, CompletedSeen, SparingRun, CleanStarts, TaskSeen;
    n := ParallelLeftByJoin(cfg, actions, i);
    var s := Reach(cfg, actions).shared;
    var m := s.log[i].move;
    SeenRecord(cfg, actions, n, m.snap);
    var ids := Recorded(m.snap.stateData);
    assert forall id :: id in m.cause.results <==> id in s.branches;
    assert m.cause.results.Keys == s.branches.Keys;
    assert ids[0] in s.branches;
  }

  /** The record a worker once read names the branches there are at the end of the run. */
  lemma SeenRecord(cfg: Config, actions: seq<Action>, n: nat, snap: Task)
    requires SparingRun(cfg, actions) && CleanStarts(cfg, actions)
    requires n <= |actions| && TaskSeen(cfg, actions[..n], snap) && Recorded(snap.stateData) != []
    ensures AreSpawned(Reach(cfg, actions).shared.branches, Recorded(snap.stateData))
  {
    var t: nat :| t <= |actions[..n]| && Reach(cfg, actions[..n][..t]).shared.task == snap;
    assert actions[..n][..t] == actions[..t] && actions[..t] + actions[t..] == actions;
    hide Reach, Recorded, SparingRun, CleanStarts, AreSpawned;
    RecordIsSpawned(cfg, actions[..t], actions[t..]);
  }

  // ── a start that is not clean ──

  ghost predicate Apart(p: Pc, q: Pc) {
    Spawning(p) && Spawning(q) ==> forall id :: id in p.ids ==> id !in q.ids
  }

  /** Spawning workers hold existing branches, and no two the same one. */
  ghost predicate HeldApart(sys: Sys) {
    && (forall w, id :: w in sys.workers && Spawning(sys.workers[w]) && id in sys.workers[w].ids ==>
          id in sys.shared.branches)
    && (forall v, w :: v in sys.workers && w in sys.workers && v != w ==> Apart(sys.workers[v], sys.workers[w]))
  }

  lemma ActHeldApart(cfg: Config, sys: Sys, w: WorkerId, c: Choice)
    requires HeldApart(sys) && w in sys.workers
    ensures HeldApart(Apply(cfg, sys, Act(w, c)))
  {
    hide Step;
    var pc, s := sys.workers[w], sys.shared;
    var (s', pc') := Step(cfg, s, w, pc, c);
    StepBranches(cfg, s, w, pc, c);
    StepSpawning(cfg, s, w, pc, c);
    assert forall id :: id in s.branches ==> id in s.branches.Keys && id in s'.branches.Keys;
    assert c.id in s'.branches.Keys ==> c.id in s'.branches;
  }

  lemma {:induction false} RunHeldApart(cfg: Config, actions: seq<Action>)
    ensures HeldApart(Reach(cfg, actions))
    decreases |actions|
  {
    if actions != [] {
      hide HeldApart, Step, MergeData;
      var n := |actions| - 1;
      RunHeldApart(cfg, actions[..n]);
      var sys, a := Reach(cfg, actions[..n]), actions[n];
      if a.Act? && a.w in sys.workers { ActHeldApart(cfg, sys, a.w, a.choice); } else { OthersHeldApart(cfg, sys, a); }
    } else {
      NothingHeld(cfg);
    }
  }

  lemma NothingHeld(cfg: Config)
    ensures HeldApart(Init(cfg))
  {
  }

  lemma OthersHeldApart(cfg: Config, sys: Sys, a: Action)
    requires HeldApart(sys) && (a.Act? ==> a.w !in sys.workers)
    ensures HeldApart(Apply(cfg, sys, a))
  {
    hide MergeData;
    MergeBranches(cfg, sys.shared);
  }

  lemma FreshId(branches: map<TaskId, BranchTask>) returns (id: TaskId)
    ensures id !in branches
  {
    var n := KeyLengthBound(branches.Keys);
    id := seq(n + 1, _ => 'a');
    assert |id| > n;
    assert id in branches ==> id in branches.Keys;
  }

  /** How far a spawning worker is from its record. */
  function ToRecord(cfg: Config, pc: Pc): nat
    requires Spawning(pc)
  {
    var n := if AtParallel(cfg, pc.snap) then |StateOf(cfg, pc.snap).branches.GetOr([])| else 0;
    var left := if n > |pc.ids| then n - |pc.ids| else 0;
    match pc
    case Spawn(_, _) => 2 * left + 1
    case AnnounceBranch(_, _) => 2 * left + 2
    case _ => 0
  }

  /** Left alone, with every operation succeeding, a spawning worker records what it holds and what it still spawns. */
  ghost predicate Recorder(sys: Sys, w: WorkerId, sys': Sys)
    requires w in sys.workers && Spawning(sys.workers[w])
  {
    var held, ids := sys.workers[w].ids, Recorded(sys'.shared.task.stateData);
    && sys'.workers == sys.workers[w := Done(Ok(()))]
    && ids != []
    && (forall id :: id in ids ==> id in sys'.shared.branches && (id in held || id !in sys.shared.branches))
    && (forall id :: id in sys.shared.branches ==> id in sys'.shared.branches)
  }

  lemma {:induction false} FinishSpawning(cfg: Config, actions: seq<Action>, w: WorkerId) returns (later: seq<Action>)
    requires Registered(cfg) && w in Reach(cfg, actions).workers && Spawning(Reach(cfg, actions).workers[w])
    ensures actions <= later && Recorder(Reach(cfg, actions), w, Reach(cfg, later))
    ensures forall i :: |actions| <= i < |later| ==> later[i].Act? && later[i].choice.ok
    decreases ToRecord(cfg, Reach(cfg, actions).workers[w])
  {
    hide Reach, Inv, Recorded, Step, HeldApart, SpawnOk, AllSpawnOk, ToRecord;
    var sys := Reach(cfg, actions);
    Reachable(cfg, actions);
    SpawnsReach(cfg, actions);
    RunHeldApart(cfg, actions);
    var pc := sys.workers[w];
    SpawnerOk(cfg, sys, w);
    var id := FreshId(sys.shared.branches);
    var c := Choice(true, 0, id);
    var next := actions + [Act(w, c)];
    OneMoreAct(cfg, actions, sys, w, c);
    if pc.RecordBranches? {
      RecordsHeld(cfg, sys, w, c);
      later := next;
    } else {
      var sys' := Reach(cfg, next);
      StepCloser(cfg, sys.shared, w, pc, c);
      later := FinishSpawning(cfg, next, w);
      assert sys'.workers[w := Done(Ok(()))] == sys.workers[w := Done(Ok(()))];
    }
  }

  lemma SpawnerOk(cfg: Config, sys: Sys, w: WorkerId)
    requires Inv(cfg, sys) && AllSpawnOk(cfg, sys) && w in sys.workers && Spawning(sys.workers[w])
    ensures SpawnOk(cfg, sys.workers[w]) && AtParallel(cfg, sys.workers[w].snap)
  {
    hide SharedOk;
    assert WorkerOk(cfg, sys.shared, sys.workers[w]);
  }

  lemma RecordsHeld(cfg: Config, sys: Sys, w: WorkerId, c: Choice)
    requires w in sys.workers && sys.workers[w].RecordBranches? && SpawnOk(cfg, sys.workers[w]) && c.ok
    requires AtParallel(cfg, sys.workers[w].snap) && HeldApart(sys)
    ensures var (s', pc') := Step(cfg, sys.shared, w, sys.workers[w], c);
            Recorder(sys, w, Sys(s', sys.workers[w := pc']))
  {
    hide Recorded, MergeData, RecordPatch;
    var pc := sys.workers[w];
    RecordReads(cfg, sys.shared, StrategyOf(StateOf(cfg, pc.snap)), pc.ids, c.now);
    MergeBranches(cfg, sys.shared);
  }

  /** A successful step towards the record. */
  lemma StepCloser(cfg: Config, s: Shared, w: WorkerId, pc: Pc, c: Choice)
    requires (pc.Spawn? || pc.AnnounceBranch?) && SpawnOk(cfg, pc) && c.ok && c.id !in s.branches
    ensures var (s', pc') := Step(cfg, s, w, pc, c);
            && Spawning(pc') && ToRecord(cfg, pc') < ToRecord(cfg, pc)
            && (forall x :: x in pc'.ids ==> x in pc.ids || x == c.id)
            && (forall x :: x in s.branches ==> x in s'.branches)
  {
    hide BranchInput;
  }

  /** Whenever two workers are spawning at once, the run can go on, with every operation succeeding, so that both record
      and the second record replaces the first: branches that were spawned are recorded no more. */
  lemma SecondSpawnerBreaks(cfg: Config, actions: seq<Action>, v: WorkerId, w: WorkerId)
    returns (later: seq<Action>, lost: TaskId)
    requires Registered(cfg) && v != w
    requires v in Reach(cfg, actions).workers && Spawning(Reach(cfg, actions).workers[v])
    requires w in Reach(cfg, actions).workers && Spawning(Reach(cfg, actions).workers[w])
    ensures actions <= later && forall i :: |actions| <= i < |later| ==> later[i].Act? && later[i].choice.ok
    ensures var s := Reach(cfg, later).shared;
            && Recorded(s.task.stateData) != []
            && lost in s.branches && lost !in Recorded(s.task.stateData)
            && !AreSpawned(s.branches, Recorded(s.task.stateData))
  {
    hide Reach, Recorded;
    RunHeldApart(cfg, actions);
    var first := FinishSpawning(cfg, actions, v);
    lost := Recorded(Reach(cfg, first).shared.task.stateData)[0];
    later := FinishSpawning(cfg, first, w);
  }

  /** A start that is not clean can always go wrong: from right after it the run can go on, with every operation
      succeeding, to a record that misses a branch which was spawned. Either somebody else is spawning and the two
      records replace each other, or a branch left behind by an earlier attempt is never recorded. */
  lemma UncleanStartBreaks(cfg: Config, actions: seq<Action>, i: nat) returns (later: seq<Action>, lost: TaskId)
    requires Registered(cfg) && StartsAt(cfg, actions, i) && !Untouched(Reach(cfg, actions[..i]))
    ensures actions[..i + 1] <= later && forall k :: i < k < |later| ==> later[k].Act? && later[k].choice.ok
    ensures var s := Reach(cfg, later).shared;
            && Recorded(s.task.stateData) != []
            && lost in s.branches && lost !in Recorded(s.task.stateData)
            && !AreSpawned(s.branches, Recorded(s.task.stateData))
  {
    hide Reach, Recorded, Step;
    var before, a := actions[..i], actions[i];
    var started := actions[..i + 1];
    assert before + [a] == started;
    var sys := Reach(cfg, before);
    StartsFresh(cfg, before, a);
    if v :| v in sys.workers && Spawning(sys.workers[v]) {
      later, lost := SecondSpawnerBreaks(cfg, started, v, a.w);
    } else {
      lost :| lost in sys.shared.branches;
      later := FinishSpawning(cfg, started, a.w);
    }
  }

  /** A start only moves the worker that starts, which holds nothing yet. */
  lemma StartsFresh(cfg: Config, before: seq<Action>, a: Action)
    requires Starts(cfg, Reach(cfg, before), a)
    ensures var sys, sys' := Reach(cfg, before), Reach(cfg, before + [a]);
            && Recorded(sys.shared.task.stateData) == [] && sys'.shared == sys.shared
            && a.w in sys'.workers && Spawning(sys'.workers[a.w]) && sys'.workers[a.w].ids == []
            && !Spawning(sys.workers[a.w])
            && forall v :: v in sys.workers && v != a.w ==> v in sys'.workers && sys'.workers[v] == sys.workers[v]
  {
    hide Reach, Recorded, Step;
    var sys := Reach(cfg, before);
    StepSpawning(cfg, sys.shared, a.w, sys.workers[a.w], a.choice);
    OneMoreAct(cfg, before, sys, a.w, a.choice);
  }
}
