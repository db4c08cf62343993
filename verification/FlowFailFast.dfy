/** A run in which a branch fails, the parent joins fail-fast, and the parent nevertheless ends as completed. */
module FlowFailFast {
  import opened Wrappers
  import opened JsonValues
  import opened Condition
  import opened Flow
  import opened FlowEngine
  import opened FlowSafety
  import opened FlowTheorems
  import opened FlowJoin
  import opened FlowSpawn

  const TO_FORK := [TransitionDef("fork", None, Some(true))]
  const TO_END := [TransitionDef("end", None, Some(true))]
  const BRANCHES := [BranchDef("agent", "skill", None)]

  function Fork(): StateDef {
    StateDef(Parallel, None, None, TO_END, Some(BRANCHES), Some(FailFast), None)
  }

  function Def(): FlowDef {
    FlowDef("fail-fast", "begin", map[
      "begin" := StateDef(Start, None, None, TO_FORK, None, None, None),
      "fork" := Fork(),
      "end" := StateDef(End, None, None, [], None, None, None)], None)
  }

  function Cfg(): Config {
    Config(Def(), map[], Postgres, true, _ => true)
  }

  /** Every operation succeeds at time zero; the one identifier drawn is "b". */
  const Good: Choice := Choice(true, 0, "b")

  lemma DefRegistered()
    ensures Registered(Cfg())
  {
    var def := Def();
    assert def.OfType(Start) == {"begin"};
    assert "end" in def.OfType(End);
  }

  // ── the run, step by step ──

  lemma ActStep(cfg: Config, actions: seq<Action>, s: Shared, pc: Pc)
    requires Reach(cfg, actions) == Sys(s, map[0 := pc])
    ensures var (s', pc') := Step(cfg, s, 0, pc, Good);
            Reach(cfg, actions + [Act(0, Good)]) == Sys(s', map[0 := pc'])
  {
    hide Step, Reach;
    OneMore(cfg, actions, Act(0, Good));
    var r := Step(cfg, s, 0, pc, Good);
    assert map[0 := pc][0 := r.1] == map[0 := r.1];
  }

  lemma LaunchStep(cfg: Config, actions: seq<Action>, sys: Sys)
    requires Reach(cfg, actions) == sys && (sys.workers == map[] || (0 in sys.workers && sys.workers[0].Done?))
    requires sys.workers.Keys <= {0}
    ensures Reach(cfg, actions + [Launch(0)]) == Sys(sys.shared, map[0 := ReadTask(0)])
  {
    hide Step, Reach;
    OneMore(cfg, actions, Launch(0));
    assert sys.workers[0 := ReadTask(0)] == map[0 := ReadTask(0)];
  }

  function Start0(): Shared { Init(Cfg()).shared }

  function ToFork(): Move {
    Move(Start0().task, "fork", Matched(0, Start0().flow, 0, 0))
  }

  function AtFork(): Shared { CommitMove(Cfg(), Start0(), 0, ToFork()) }

  lemma FirstSteps()
    ensures Step(Cfg(), Start0(), 0, ReadTask(0), Good) == (Start0(), ReadFlow(0, Start0().task))
    ensures Step(Cfg(), Start0(), 0, ReadFlow(0, Start0().task), Good) == (Start0(), Commit(ToFork()))
    ensures Step(Cfg(), Start0(), 0, Commit(ToFork()), Good) == (AtFork(), Announce(ToFork()))
    ensures Step(Cfg(), AtFork(), 0, Announce(ToFork()), Good) == (AtFork(), OnEnter(ToFork(), 0))
    ensures Step(Cfg(), AtFork(), 0, OnEnter(ToFork(), 0), Good) == (AtFork(), ReadTask(1))
  {
    var facts := FactsOf(Cfg(), Start0().task, Start0().flow, 0);
    assert Fires(TO_FORK[0], facts) == Ok(true);
    assert Decide(TO_FORK, 0, facts) == Take(0);
  }

  const INPUT := Obj(map[])

  function Spawned(): Shared {
    AtFork().(branches := map["b" := BranchTask(INPUT, Running, None)])
  }

  function Marked(): Shared {
    MergeData(Cfg(), Spawned(), RecordPatch(FailFast, ["b"], 0))
  }

  lemma SpawnSteps()
    ensures var t := AtFork().task;
            && Step(Cfg(), AtFork(), 0, ReadTask(1), Good) == (AtFork(), Spawn(t, []))
            && Step(Cfg(), AtFork(), 0, Spawn(t, []), Good) == (Spawned(), AnnounceBranch(t, ["b"]))
            && Step(Cfg(), Spawned(), 0, AnnounceBranch(t, ["b"]), Good) == (Spawned(), Spawn(t, ["b"]))
            && Step(Cfg(), Spawned(), 0, Spawn(t, ["b"]), Good) == (Spawned(), RecordBranches(t, ["b"]))
            && Step(Cfg(), Spawned(), 0, RecordBranches(t, ["b"]), Good) == (Marked(), Done(Ok(())))
  {
    hide MergeData, RecordPatch;
    var t := AtFork().task;
    assert t.stateData == map[];
    assert Recorded(t.stateData) == [];
    assert StateOf(Cfg(), t) == Fork();
    assert [] + ["b"] == ["b"];
    assert BranchInput(t, BRANCHES[0]) == INPUT;
    assert AtFork().branches["b" := BranchTask(INPUT, Running, None)] == Spawned().branches;
  }

  function BranchFailed(): Shared {
    Marked().(branches := map["b" := BranchTask(INPUT, Failed("boom"), None)])
  }

  const RESULTS: Results := map["b" := BranchError("boom")]

  lemma JoinSteps()
    ensures var t := Marked().task;
            && t.version == 1 && AtParallel(Cfg(), t) && "error" !in t.stateData
            && Step(Cfg(), BranchFailed(), 0, ReadTask(0), Good)
            == (BranchFailed(), ScanBranches(t, ["b"], 0, Scan(true, false, map[])))
            && Step(Cfg(), BranchFailed(), 0, ScanBranches(t, ["b"], 0, Scan(true, false, map[])), Good)
            == (BranchFailed(), CheckVersion(t, RESULTS, true))
            && Step(Cfg(), BranchFailed(), 0, CheckVersion(t, RESULTS, true), Good)
            == (BranchFailed(), MergeResults(t, RESULTS, true))
  {
    RecordReads(Cfg(), Spawned(), FailFast, ["b"], 0);
    hide MergeData, RecordPatch;
    var t := Marked().task;
    MarkedTask();
    assert StateOf(Cfg(), t) == Fork();
    assert Recorded(t.stateData) == ["b"];
    assert ScanOne("b", Some(BranchFailed().branches["b"]), Scan(true, false, map[])) == Scan(true, true, RESULTS);
  }

  lemma MarkedTask()
    ensures Marked().task.version == 1 && Marked().task.currentState == "fork" && Marked().task.status == Running
    ensures "error" !in Marked().task.stateData && BranchFailed().task == Marked().task
  {
  }

  lemma SecondActs(actions: seq<Action>)
    requires Reach(Cfg(), actions) == Sys(BranchFailed(), map[0 := ReadTask(0)])
    ensures Reach(Cfg(), actions + [Act(0, Good)] + [Act(0, Good)] + [Act(0, Good)])
         == Sys(BranchFailed(), map[0 := MergeResults(Marked().task, RESULTS, true)])
  {
    hide Step, Reach, Marked, BranchFailed;
    var a := Act(0, Good);
    JoinSteps();
    ActStep(Cfg(), actions, BranchFailed(), ReadTask(0));
    ActStep(Cfg(), actions + [a], BranchFailed(), ScanBranches(Marked().task, ["b"], 0, Scan(true, false, map[])));
    ActStep(Cfg(), actions + [a] + [a], BranchFailed(), CheckVersion(Marked().task, RESULTS, true));
  }

  lemma FirstActs(actions: seq<Action>)
    requires Reach(Cfg(), actions) == Sys(Start0(), map[0 := ReadTask(0)])
    ensures var a := Act(0, Good);
            Reach(Cfg(), actions + [a] + [a] + [a] + [a] + [a]) == Sys(AtFork(), map[0 := ReadTask(1)])
  {
    hide Step, Reach, Start0, AtFork, ToFork;
    var a := Act(0, Good);
    FirstSteps();
    ActStep(Cfg(), actions, Start0(), ReadTask(0));
    ActStep(Cfg(), actions + [a], Start0(), ReadFlow(0, Start0().task));
    ActStep(Cfg(), actions + [a] + [a], Start0(), Commit(ToFork()));
    ActStep(Cfg(), actions + [a] + [a] + [a], AtFork(), Announce(ToFork()));
    ActStep(Cfg(), actions + [a] + [a] + [a] + [a], AtFork(), OnEnter(ToFork(), 0));
  }

  lemma SpawnActs(actions: seq<Action>)
    requires Reach(Cfg(), actions) == Sys(AtFork(), map[0 := ReadTask(1)])
    ensures var a := Act(0, Good);
            Reach(Cfg(), actions + [a] + [a] + [a] + [a] + [a]) == Sys(Marked(), map[0 := Done(Ok(()))])
  {
    hide Step, Reach, AtFork, Spawned, Marked;
    var a := Act(0, Good);
    SpawnSteps();
    var t := AtFork().task;
    ActStep(Cfg(), actions, AtFork(), ReadTask(1));
    ActStep(Cfg(), actions + [a], AtFork(), Spawn(t, []));
    ActStep(Cfg(), actions + [a] + [a], Spawned(), AnnounceBranch(t, ["b"]));
    ActStep(Cfg(), actions + [a] + [a] + [a], Spawned(), Spawn(t, ["b"]));
    ActStep(Cfg(), actions + [a] + [a] + [a] + [a], Spawned(), RecordBranches(t, ["b"]));
  }

  lemma BranchStep(actions: seq<Action>)
    requires Reach(Cfg(), actions) == Sys(Marked(), map[0 := Done(Ok(()))])
    ensures Reach(Cfg(), actions + [UpdateBranch("b", Failed("boom"), None)])
         == Sys(BranchFailed(), map[0 := Done(Ok(()))])
  {
    hide Step, Reach;
    OneMore(Cfg(), actions, UpdateBranch("b", Failed("boom"), None));
    MarkedBranches();
    assert Marked().branches["b" := BranchTask(INPUT, Failed("boom"), None)] == BranchFailed().branches;
  }

  lemma MarkedBranches()
    ensures Marked().branches == map["b" := BranchTask(INPUT, Running, None)]
  {
  }

  /** The documentation says that under fail-fast one failed branch marks the parent task as failed. In this run the
      only branch fails, the parent joins fail-fast into its End state with an `error` in its data, and is completed. */
  lemma FailFastParentCompletes() returns (actions: seq<Action>)
    ensures Registered(Cfg()) && NoForce(actions)
    ensures var s := Reach(Cfg(), actions).shared;
            && Cfg().def.HasType(s.task.currentState, End)
            && s.task.status == Completed
            && "error" in s.task.stateData
            && "b" in s.branches && s.branches["b"].status == Failed("boom")
            && s.log != [] && s.log[|s.log| - 1].move.cause == Joined(RESULTS, true)
  {
    hide Reach, Registered, Marked, AtFork, Def, Spawned;
    var a := Act(0, Good);
    DefRegistered();
    assert Reach(Cfg(), []) == Init(Cfg()) by { NothingYet(); }
    LaunchStep(Cfg(), [], Init(Cfg()));
    var launched := [] + [Launch(0)];
    FirstActs(launched);
    var forked := launched + [a] + [a] + [a] + [a] + [a];
    SpawnActs(forked);
    var spawned := forked + [a] + [a] + [a] + [a] + [a];
    BranchStep(spawned);
    var failed := spawned + [UpdateBranch("b", Failed("boom"), None)];
    LaunchStep(Cfg(), failed, Sys(BranchFailed(), map[0 := Done(Ok(()))]));
    var again := failed + [Launch(0)];
    SecondActs(again);
    var checked := again + [a] + [a] + [a];
    JoinActs(checked);
    actions := checked + [a] + [a];
  }

  lemma NothingYet()
    ensures Reach(Cfg(), []) == Init(Cfg())
  {
  }

  lemma JoinActs(actions: seq<Action>)
    requires Reach(Cfg(), actions) == Sys(BranchFailed(), map[0 := MergeResults(Marked().task, RESULTS, true)])
    ensures var s := Reach(Cfg(), actions + [Act(0, Good)] + [Act(0, Good)]).shared;
            && Cfg().def.HasType(s.task.currentState, End)
            && s.task.status == Completed
            && "error" in s.task.stateData
            && s.branches == BranchFailed().branches
            && s.log != [] && s.log[|s.log| - 1].move.cause == Joined(RESULTS, true)
  {
    hide Reach, Marked, BranchFailed, MergeData, ResultsPatch;
    var s, t := BranchFailed(), Marked().task;
    JoinSteps();
    MarkedTask();
    assert StateOf(Cfg(), t) == Fork();
    FailFastStatus(Cfg(), s, 0, t, RESULTS, Good, Good);
    MergeHasError(Cfg(), s, RESULTS);
    MergeBranchesSame(s);
    ActStep(Cfg(), actions, s, MergeResults(t, RESULTS, true));
    var (s1, pc1) := Step(Cfg(), s, 0, MergeResults(t, RESULTS, true), Good);
    assert FirstAuto(TO_END, 0) == Some(0);
    assert pc1 == Commit(Move(t, "end", Joined(RESULTS, true)));
    ActStep(Cfg(), actions + [Act(0, Good)], s1, pc1);
  }

  lemma MergeBranchesSame(s: Shared)
    ensures MergeData(Cfg(), s, ResultsPatch(RESULTS, true)).branches == s.branches
    ensures MergeData(Cfg(), s, ResultsPatch(RESULTS, true)).log == s.log
  {
  }
}
