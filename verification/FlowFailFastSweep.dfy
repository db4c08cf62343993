/** A fail-fast check that stops at a failed branch and, timed out, gives up branches it has not looked at. */
module FlowFailFastSweep {
  import opened Wrappers
  import opened JsonValues
  import opened Condition
  import opened Flow
  import opened FlowEngine
  import opened FlowSafety
  import opened FlowTheorems
  import opened FlowSpawn
  import opened FlowSweep
  import opened FlowForkRuns

  // ── from any such moment ──

  /** The recorded branches of a fail-fast fork whose time is up: one runs, one has failed, one has completed. */
  ghost predicate StopsEarly(cfg: Config, s: Shared, a: TaskId, b: TaskId, c: TaskId) {
    && AtParallel(cfg, s.task) && StateOf(cfg, s.task).branches.GetOr([]) != []
    && StateOf(cfg, s.task).joinStrategy == Some(FailFast)
    && Recorded(s.task.stateData) == [a, b, c] && Distinct([a, b, c]) && cfg.isUuid(a) && cfg.isUuid(b) && cfg.isUuid(c)
    && TimedOut(StateOf(cfg, s.task), s.task, 0)
    && {a, b, c} <= s.branches.Keys
    && s.branches[a].status == Running && s.branches[b].status.Failed? && s.branches[c].status == Completed
  }

  function TimedOutBranch(s: Shared, id: TaskId): Shared
    requires id in s.branches
  {
    s.(branches := s.branches[id := s.branches[id].(status := Failed(TIMEOUT_MESSAGE))])
  }

  function Stopped(s: Shared, b: TaskId): Scan
    requires b in s.branches && s.branches[b].status.Failed?
  {
    Scan(false, true, map[b := BranchError(s.branches[b].status.error)])
  }

  lemma ScanSteps(cfg: Config, s: Shared, w: WorkerId, a: TaskId, b: TaskId, c: TaskId)
    requires StopsEarly(cfg, s, a, b, c)
    ensures var t, ids, none := s.task, [a, b, c], Scan(true, false, map[]);
            && Step(cfg, s, w, ReadTask(0), Good("")) == (s, ScanBranches(t, ids, 0, none))
            && Step(cfg, s, w, ScanBranches(t, ids, 0, none), Good(""))
            == (s, ScanBranches(t, ids, 1, none.(allCompleted := false)))
            && Step(cfg, s, w, ScanBranches(t, ids, 1, none.(allCompleted := false)), Good(""))
            == (s, Sweep(t, ids, 0, Stopped(s, b)))
  {
    hide Recorded, TimedOut;
    var none: Scan := Scan(true, false, map[]);
    assert ScanOne(a, Some(s.branches[a]), none) == none.(allCompleted := false);
    assert ScanOne(b, Some(s.branches[b]), none.(allCompleted := false)) == Stopped(s, b);
  }

  lemma SweepThree(cfg: Config, s: Shared, w: WorkerId, a: TaskId, b: TaskId, c: TaskId)
    requires StopsEarly(cfg, s, a, b, c)
    ensures var t, ids, s1, scan, scan1 := s.task, [a, b, c], TimedOutBranch(s, a), Stopped(s, b), SweepScan(a, Stopped(s, b));
            && Step(cfg, s, w, Sweep(t, ids, 0, scan), Good("")) == (s1, Sweep(t, ids, 1, scan1))
            && Step(cfg, s1, w, Sweep(t, ids, 1, scan1), Good("")) == (s1, Sweep(t, ids, 2, scan1))
            && Step(cfg, s1, w, Sweep(t, ids, 2, scan1), Good(""))
            == (TimedOutBranch(s1, c), Sweep(t, ids, 3, SweepScan(c, scan1)))
  {
    hide Recorded, TimedOut;
    var ids := [a, b, c];
    assert ids[0] == a && ids[1] == b && ids[2] == c;
    assert a != b && b != c && a != c;
  }

  /** The worker acts alone and everything succeeds. */
  ghost predicate ActsAlone(actions: seq<Action>, later: seq<Action>, w: WorkerId) {
    actions <= later && forall i :: |actions| <= i < |later| ==> later[i] == Launch(w) || later[i] == Act(w, Good(""))
  }

  lemma ActsOn(actions: seq<Action>, later: seq<Action>, w: WorkerId)
    requires ActsAlone(actions, later, w)
    ensures ActsAlone(actions, later + [Act(w, Good(""))], w)
  {
  }

  lemma Scans(cfg: Config, actions: seq<Action>, sys: Sys, w: WorkerId, a: TaskId, b: TaskId, c: TaskId)
    returns (later: seq<Action>)
    requires Reach(cfg, actions) == sys && CanLaunch(sys, w) && StopsEarly(cfg, sys.shared, a, b, c)
    ensures Reach(cfg, later) == Put(sys, sys.shared, w, Sweep(sys.shared.task, [a, b, c], 0, Stopped(sys.shared, b)))
    ensures ActsAlone(actions, later, w)
  {
    var g, s, t, ids := Good(""), sys.shared, sys.shared.task, [a, b, c];
    var none: Scan := Scan(true, false, map[]);
    var some := none.(allCompleted := false);
    ScanSteps(cfg, s, w, a, b, c);
    hide Reach, Step, StopsEarly;
    Launches(cfg, actions, sys, w);
    var b1 := actions + [Launch(w)];
    Acts(cfg, b1, sys, s, w, ReadTask(0), g, s, ScanBranches(t, ids, 0, none));
    var b2 := b1 + [Act(w, g)];
    Acts(cfg, b2, sys, s, w, ScanBranches(t, ids, 0, none), g, s, ScanBranches(t, ids, 1, some));
    var b3 := b2 + [Act(w, g)];
    Acts(cfg, b3, sys, s, w, ScanBranches(t, ids, 1, some), g, s, Sweep(t, ids, 0, Stopped(s, b)));
    later := b3 + [Act(w, g)];
    ActsOn(actions, b1, w);
    ActsOn(actions, b2, w);
    ActsOn(actions, b3, w);
  }

  /** From any such moment of any run: a worker that starts then, acts alone and meets no failure gives up branch `c`,
      which had completed before it started. */
  lemma UnreadIsOverwritten(cfg: Config, actions: seq<Action>, w: WorkerId, a: TaskId, b: TaskId, c: TaskId)
    returns (later: seq<Action>)
    requires CanLaunch(Reach(cfg, actions), w) && StopsEarly(cfg, Reach(cfg, actions).shared, a, b, c)
    ensures ActsAlone(actions, later, w)
    ensures var s' := Reach(cfg, later).shared; c in s'.branches && s'.branches[c].status == Failed(TIMEOUT_MESSAGE)
  {
    var g, sys := Good(""), Reach(cfg, actions);
    var s, t, ids := sys.shared, sys.shared.task, [a, b, c];
    var scan, s1 := Stopped(s, b), TimedOutBranch(s, a);
    var scan1 := SweepScan(a, scan);
    SweepThree(cfg, s, w, a, b, c);
    hide Reach, Step, StopsEarly, SweepScan;
    var b0 := Scans(cfg, actions, sys, w, a, b, c);
    Acts(cfg, b0, sys, s, w, Sweep(t, ids, 0, scan), g, s1, Sweep(t, ids, 1, scan1));
    var b1 := b0 + [Act(w, g)];
    Acts(cfg, b1, sys, s1, w, Sweep(t, ids, 1, scan1), g, s1, Sweep(t, ids, 2, scan1));
    var b2 := b1 + [Act(w, g)];
    Acts(cfg, b2, sys, s1, w, Sweep(t, ids, 2, scan1), g, TimedOutBranch(s1, c), Sweep(t, ids, 3, SweepScan(c, scan1)));
    later := b2 + [Act(w, g)];
    ActsOn(actions, b0, w);
    ActsOn(actions, b1, w);
    ActsOn(actions, b2, w);
  }

  // ── and such a moment is reached ──

  const BRANCH := BRANCHES[0]
  const THREE := [BRANCH, BRANCH, BRANCH]

  /** Start, a fail-fast fork with three branches and no time to spare, the end. */
  function ThreeDef(): FlowDef {
    FlowDef("stops", "begin", map[
      "begin" := StateDef(Start, None, None, Auto("fork"), None, None, None),
      "fork" := StateDef(Parallel, None, None, Auto("end"), Some(THREE), Some(FailFast), Some(0)),
      "end" := StateDef(End, None, None, [], None, None, None)], None)
  }

  function ThreeCfg(): Config {
    Config(ThreeDef(), map[], Postgres, true, _ => true)
  }

  predicate ForksThree(cfg: Config, t: Task) {
    && AtParallel(cfg, t) && StateOf(cfg, t).branches == Some(THREE) && StateOf(cfg, t).joinStrategy == Some(FailFast)
    && StateOf(cfg, t).timeoutSecs == Some(0)
  }

  lemma ThreeRegistered()
    ensures Registered(ThreeCfg()) && LeadsToFork(ThreeCfg()) && forall id :: ThreeCfg().isUuid(id)
    ensures var s := AtFork(ThreeCfg());
            ForksThree(ThreeCfg(), s.task) && s.task.stateData == map[] && s.branches == map[]
    ensures Init(ThreeCfg()).workers == map[]
  {
    var def := ThreeDef();
    assert def.OfType(Start) == {"begin"};
    assert "end" in def.OfType(End);
  }

  lemma SpawnOneSteps(cfg: Config, s: Shared, t: Task, ids: seq<TaskId>, id: TaskId)
    requires ForksThree(cfg, t) && |ids| < 3 && id !in s.branches
    ensures var s' := Spawned(cfg, s, t, id);
            && Step(cfg, s, 0, Spawn(t, ids), Good(id)) == (s', AnnounceBranch(t, ids + [id]))
            && Step(cfg, s', 0, AnnounceBranch(t, ids + [id]), Good(id)) == (s', Spawn(t, ids + [id]))
  {
    hide BranchInput;
  }

  lemma SpawnsOne(cfg: Config, actions: seq<Action>, sys: Sys, s: Shared, t: Task, ids: seq<TaskId>, id: TaskId)
    returns (later: seq<Action>)
    requires Reach(cfg, actions) == Put(sys, s, 0, Spawn(t, ids)) && ForksThree(cfg, t) && |ids| < 3 && id !in s.branches
    ensures Reach(cfg, later) == Put(sys, Spawned(cfg, s, t, id), 0, Spawn(t, ids + [id]))
    ensures Succeeds(actions) ==> Succeeds(later)
  {
    var g, s' := Good(id), Spawned(cfg, s, t, id);
    SpawnOneSteps(cfg, s, t, ids, id);
    hide Reach, Step, Spawned, ForksThree;
    Acts(cfg, actions, sys, s, 0, Spawn(t, ids), g, s', AnnounceBranch(t, ids + [id]));
    var b1 := actions + [Act(0, g)];
    Acts(cfg, b1, sys, s', 0, AnnounceBranch(t, ids + [id]), g, s', Spawn(t, ids + [id]));
    later := b1 + [Act(0, g)];
  }

  const IDS := ["a", "b", "c"]

  function ThreeSpawned(cfg: Config, s: Shared): Shared {
    Spawned(cfg, Spawned(cfg, Spawned(cfg, s, s.task, "a"), s.task, "b"), s.task, "c")
  }

  function ThreeRecorded(cfg: Config, s: Shared): Shared {
    MergeData(cfg, ThreeSpawned(cfg, s), RecordPatch(FailFast, IDS, 0))
  }

  lemma RecordSteps(cfg: Config, s: Shared, t: Task)
    requires ForksThree(cfg, t)
    ensures Step(cfg, s, 0, Spawn(t, IDS), Good("")) == (s, RecordBranches(t, IDS))
    ensures Step(cfg, s, 0, RecordBranches(t, IDS), Good(""))
         == (MergeData(cfg, s, RecordPatch(FailFast, IDS, 0)), Done(Ok(())))
  {
    hide MergeData, RecordPatch;
  }

  lemma ReadsThree(cfg: Config, s: Shared)
    requires ForksThree(cfg, s.task) && s.task.stateData == map[]
    ensures Step(cfg, s, 0, ReadTask(1), Good("")) == (s, Spawn(s.task, []))
  {
    assert Recorded(map[]) == [];
  }

  lemma ThreeApart(cfg: Config, s: Shared)
    requires s.branches == map[]
    ensures var s1 := Spawned(cfg, s, s.task, "a");
            "a" !in s.branches && "b" !in s1.branches && "c" !in Spawned(cfg, s1, s.task, "b").branches
  {
  }

  lemma SpawnsThree(cfg: Config, actions: seq<Action>, sys: Sys, s: Shared) returns (later: seq<Action>)
    requires Reach(cfg, actions) == Put(sys, s, 0, ReadTask(1))
    requires ForksThree(cfg, s.task) && s.task.stateData == map[] && s.branches == map[]
    ensures Reach(cfg, later) == Put(sys, ThreeRecorded(cfg, s), 0, Done(Ok(())))
    ensures Succeeds(actions) ==> Succeeds(later)
  {
    hide Reach, Step, ForksThree, Spawned, MergeData, RecordPatch, Succeeds;
    var g, t := Good(""), s.task;
    var s1 := Spawned(cfg, s, t, "a");
    var s2 := Spawned(cfg, s1, t, "b");
    var s3 := ThreeSpawned(cfg, s);
    ThreeApart(cfg, s);
    ReadsThree(cfg, s);
    RecordSteps(cfg, s3, t);
    Acts(cfg, actions, sys, s, 0, ReadTask(1), g, s, Spawn(t, []));
    var b0 := SpawnsOne(cfg, actions + [Act(0, g)], sys, s, t, [], "a");
    assert [] + ["a"] == ["a"] && ["a"] + ["b"] == ["a", "b"] && ["a", "b"] + ["c"] == IDS;
    var b1 := SpawnsOne(cfg, b0, sys, s1, t, ["a"], "b");
    var b2 := SpawnsOne(cfg, b1, sys, s2, t, ["a", "b"], "c");
    Acts(cfg, b2, sys, s3, 0, Spawn(t, IDS), g, s3, RecordBranches(t, IDS));
    var b3 := b2 + [Act(0, g)];
    Acts(cfg, b3, sys, s3, 0, RecordBranches(t, IDS), g, ThreeRecorded(cfg, s), Done(Ok(())));
    later := b3 + [Act(0, g)];
    UpdateSucceeds(actions);
    UpdateSucceeds(b2);
    UpdateSucceeds(b3);
  }

  function WithFailed(s: Shared, id: TaskId): Shared
    requires id in s.branches
  {
    s.(branches := s.branches[id := s.branches[id].(status := Failed("boom"), output := None)])
  }

  lemma Fails(cfg: Config, actions: seq<Action>, sys: Sys, id: TaskId)
    requires Reach(cfg, actions) == sys && id in sys.shared.branches
    ensures Reach(cfg, actions + [UpdateBranch(id, Failed("boom"), None)]) == sys.(shared := WithFailed(sys.shared, id))
  {
    hide Reach;
    OneMore(cfg, actions, UpdateBranch(id, Failed("boom"), None));
  }

  lemma ThreeStop(cfg: Config, s: Shared)
    requires ForksThree(cfg, s.task) && s.task.stateData == map[] && forall id :: cfg.isUuid(id)
    ensures var s3 := ThreeRecorded(cfg, s);
            && "c" in s3.branches && "b" in WithCompleted(s3, "c").branches
            && StopsEarly(cfg, WithFailed(WithCompleted(s3, "c"), "b"), "a", "b", "c")
  {
    var spawned, s3 := ThreeSpawned(cfg, s), ThreeRecorded(cfg, s);
    assert spawned.task == s.task && {"a", "b", "c"} <= spawned.branches.Keys;
    assert spawned.branches["a"].status == Running;
    SpawnedAtReads(cfg, spawned, FailFast, IDS, 0);
    RecordReads(cfg, spawned, FailFast, IDS, 0);
    MergeLeaves(cfg, spawned, RecordPatch(FailFast, IDS, 0));
    hide Recorded, SpawnedAt, MergeData, RecordPatch, Spawned;
  }

  lemma MergeLeaves(cfg: Config, s: Shared, patch: Fields)
    ensures var s' := MergeData(cfg, s, patch);
            s'.branches == s.branches && s'.task.currentState == s.task.currentState
  {
  }

  /** The whole run: three branches are spawned, "c" completes, "b" fails, and then a worker checks them. It sees "a"
      running, stops at "b", finds the fork timed out and fails "c", which it never looked at. */
  lemma CompletedBranchNeverRead() returns (actions: seq<Action>, before: nat)
    ensures Registered(ThreeCfg()) && Succeeds(actions) && before <= |actions|
    ensures var s, s' := Reach(ThreeCfg(), actions[..before]).shared, Reach(ThreeCfg(), actions).shared;
            && CanLaunch(Reach(ThreeCfg(), actions[..before]), 0) && ActsAlone(actions[..before], actions, 0)
            && "c" in s.branches && s.branches["c"].status == Completed
            && "c" in s'.branches && s'.branches["c"].status == Failed(TIMEOUT_MESSAGE)
  {
    hide Reach, Registered, AtFork, Init, ThreeCfg, ForksThree, LeadsToFork, StopsEarly, ThreeRecorded, Succeeds, ActsAlone;
    var cfg := ThreeCfg();
    ThreeRegistered();
    var s := AtFork(cfg);
    var b0 := Arrives(cfg);
    var b1 := SpawnsThree(cfg, b0, Init(cfg), s);
    ThreeStop(cfg, s);
    var s3, done := ThreeRecorded(cfg, s), Put(Init(cfg), ThreeRecorded(cfg, s), 0, Done(Ok(())));
    Finishes(cfg, b1, done, "c");
    var b2 := b1 + [UpdateBranch("c", Completed, None)];
    Fails(cfg, b2, done.(shared := WithCompleted(s3, "c")), "b");
    var b3 := b2 + [UpdateBranch("b", Failed("boom"), None)];
    UpdatesSucceed(b1);
    CompletedBefore(cfg, Reach(cfg, b3).shared);
    actions := UnreadIsOverwritten(cfg, b3, 0, "a", "b", "c");
    before := |b3|;
    AloneSucceeds(b3, actions);
  }

  lemma CompletedBefore(cfg: Config, s: Shared)
    requires StopsEarly(cfg, s, "a", "b", "c")
    ensures "c" in s.branches && s.branches["c"].status == Completed
  {
  }

  lemma UpdatesSucceed(actions: seq<Action>)
    ensures Succeeds(actions) ==>
              Succeeds(actions + [UpdateBranch("c", Completed, None)] + [UpdateBranch("b", Failed("boom"), None)])
  {
  }

  lemma AloneSucceeds(actions: seq<Action>, later: seq<Action>)
    requires Succeeds(actions) && ActsAlone(actions, later, 0)
    ensures Succeeds(later) && |actions| <= |later| && later[..|actions|] == actions
  {
    forall i | 0 <= i < |later| && later[i].Act? ensures later[i].choice.ok {
      assert i < |actions| ==> later[i] == actions[i];
    }
  }
}
