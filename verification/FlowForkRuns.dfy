/** Complete runs of flows with a fork, each from the creation of the task. */
module FlowForkRuns {
  import opened Wrappers
  import opened JsonValues
  import opened Condition
  import opened Flow
  import opened FlowEngine
  import opened FlowSafety
  import opened FlowTheorems
  import opened FlowJoin
  import opened FlowSpawn
  import opened FlowSweep

  const BRANCHES := [BranchDef("agent", "skill", None)]

  function Auto(to: StateName): seq<TransitionDef> {
    [TransitionDef(to, None, Some(true))]
  }

  function Fork(to: StateName, timeout: Option<nat>): StateDef {
    StateDef(Parallel, None, None, Auto(to), Some(BRANCHES), Some(All), timeout)
  }

  /** Start, then a fork with one branch joined under `All`, then `next`: the end, or a second such fork. */
  function Def(next: StateName, timeout: Option<nat>): FlowDef {
    FlowDef("forks", "begin", map[
      "begin" := StateDef(Start, None, None, Auto("fork"), None, None, None),
      "fork" := Fork(next, timeout),
      "again" := Fork("end", None),
      "end" := StateDef(End, None, None, [], None, None, None)], None)
  }

  function Cfg(next: StateName, timeout: Option<nat>): Config {
    Config(Def(next, timeout), map[], Postgres, true, _ => true)
  }

  predicate IsNext(next: StateName) {
    next == "end" || next == "again"
  }

  lemma DefRegistered(next: StateName, timeout: Option<nat>)
    requires IsNext(next)
    ensures Registered(Cfg(next, timeout))
  {
    var def := Def(next, timeout);
    assert def.OfType(Start) == {"begin"};
    assert "end" in def.OfType(End);
  }

  lemma NoWorkers(cfg: Config)
    ensures Init(cfg).workers == map[]
  {
  }

  /** Every operation succeeds at time zero. */
  function Good(id: TaskId): Choice {
    Choice(true, 0, id)
  }

  /** Every operation of every worker in the run succeeds. */
  ghost predicate Succeeds(actions: seq<Action>) {
    forall i :: 0 <= i < |actions| && actions[i].Act? ==> actions[i].choice.ok
  }

  /** No other worker ever acts. */
  ghost predicate OnlyWorker(actions: seq<Action>, w: WorkerId) {
    forall i :: 0 <= i < |actions| && actions[i].Act? ==> actions[i].w == w
  }

  // ── stretches of a run that one worker makes alone ──

  function Put(sys: Sys, s: Shared, w: WorkerId, pc: Pc): Sys {
    Sys(s, sys.workers[w := pc])
  }

  lemma Acts(cfg: Config, actions: seq<Action>, sys: Sys, s: Shared, w: WorkerId, pc: Pc, c: Choice, s': Shared, pc': Pc)
    requires Reach(cfg, actions) == Put(sys, s, w, pc) && Step(cfg, s, w, pc, c) == (s', pc')
    ensures Reach(cfg, actions + [Act(w, c)]) == Put(sys, s', w, pc')
  {
    hide Step, Reach;
    OneMoreAct(cfg, actions, Put(sys, s, w, pc), w, c);
    assert sys.workers[w := pc][w := pc'] == sys.workers[w := pc'];
  }

  lemma Launches(cfg: Config, actions: seq<Action>, sys: Sys, w: WorkerId)
    requires Reach(cfg, actions) == sys && CanLaunch(sys, w)
    ensures Reach(cfg, actions + [Launch(w)]) == Put(sys, sys.shared, w, ReadTask(0))
  {
    hide Reach;
    OneMoreLaunch(cfg, actions, sys, w);
  }

  function FirstMove(cfg: Config): Move {
    var s := Init(cfg).shared;
    Move(s.task, "fork", Matched(0, s.flow, 0, 0))
  }

  /** The task has just arrived at the fork. */
  function AtFork(cfg: Config): Shared {
    CommitMove(cfg, Init(cfg).shared, 0, FirstMove(cfg))
  }

  /** The flow begins at its Start state and goes on to the fork at once. */
  predicate LeadsToFork(cfg: Config) {
    && cfg.def.HasType(cfg.def.initialState, Start) && cfg.def.states[cfg.def.initialState].transitions == Auto("fork")
    && "fork" in cfg.def.states && cfg.def.states["fork"].onEnter == None
  }

  lemma LeadsThere(next: StateName, timeout: Option<nat>)
    ensures LeadsToFork(Cfg(next, timeout))
  {
  }

  lemma FirstSteps(cfg: Config)
    requires LeadsToFork(cfg)
    ensures var s, s' := Init(cfg).shared, AtFork(cfg);
            && Step(cfg, s, 0, ReadTask(0), Good("")) == (s, ReadFlow(0, s.task))
            && Step(cfg, s, 0, ReadFlow(0, s.task), Good("")) == (s, Commit(FirstMove(cfg)))
            && Step(cfg, s, 0, Commit(FirstMove(cfg)), Good("")) == (s', Announce(FirstMove(cfg)))
            && Step(cfg, s', 0, Announce(FirstMove(cfg)), Good("")) == (s', OnEnter(FirstMove(cfg), 0))
            && Step(cfg, s', 0, OnEnter(FirstMove(cfg), 0), Good("")) == (s', ReadTask(1))
  {
    hide StatusFor;
    var s := Init(cfg).shared;
    assert Fires(Auto("fork")[0], FactsOf(cfg, s.task, s.flow, 0)) == Ok(true);
    assert Decide(Auto("fork"), 0, FactsOf(cfg, s.task, s.flow, 0)) == Take(0);
  }

  /** Worker 0 brings the new task to the fork and reads it there. */
  lemma Arrives(cfg: Config) returns (later: seq<Action>)
    requires LeadsToFork(cfg)
    ensures Reach(cfg, later) == Put(Init(cfg), AtFork(cfg), 0, ReadTask(1))
    ensures Succeeds(later)
    ensures OnlyWorker(later, 0)
  {
    var g := Good("");
    var s, s', m := Init(cfg).shared, AtFork(cfg), FirstMove(cfg);
    FirstSteps(cfg);
    assert Reach(cfg, []) == Init(cfg);
    hide Reach, Step, AtFork, Init;
    Launches(cfg, [], Init(cfg), 0);
    var b0 := [] + [Launch(0)];
    Acts(cfg, b0, Init(cfg), s, 0, ReadTask(0), g, s, ReadFlow(0, s.task));
    var b1 := b0 + [Act(0, g)];
    Acts(cfg, b1, Init(cfg), s, 0, ReadFlow(0, s.task), g, s, Commit(m));
    var b2 := b1 + [Act(0, g)];
    Acts(cfg, b2, Init(cfg), s, 0, Commit(m), g, s', Announce(m));
    var b3 := b2 + [Act(0, g)];
    Acts(cfg, b3, Init(cfg), s', 0, Announce(m), g, s', OnEnter(m, 0));
    var b4 := b3 + [Act(0, g)];
    Acts(cfg, b4, Init(cfg), s', 0, OnEnter(m, 0), g, s', ReadTask(1));
    later := b4 + [Act(0, g)];
  }

  /** The snapshot is of a fork with the one branch, joined under `All`. */
  predicate ForksOne(cfg: Config, t: Task) {
    AtParallel(cfg, t) && StateOf(cfg, t).branches == Some(BRANCHES) && StateOf(cfg, t).joinStrategy == Some(All)
  }

  function Spawned(cfg: Config, s: Shared, t: Task, id: TaskId): Shared {
    s.(branches := s.branches[id := BranchTask(BranchInput(t, BRANCHES[0]), Running, None)])
  }

  function Recording(cfg: Config, s: Shared, id: TaskId): Shared {
    MergeData(cfg, s, RecordPatch(All, [id], 0))
  }

  lemma SpawnSteps(cfg: Config, s: Shared, w: WorkerId, t: Task, id: TaskId)
    requires ForksOne(cfg, t) && id !in s.branches
    ensures var mid := Spawned(cfg, s, t, id);
            && Step(cfg, s, w, Spawn(t, []), Good(id)) == (mid, AnnounceBranch(t, [id]))
            && Step(cfg, mid, w, AnnounceBranch(t, [id]), Good(id)) == (mid, Spawn(t, [id]))
            && Step(cfg, mid, w, Spawn(t, [id]), Good(id)) == (mid, RecordBranches(t, [id]))
            && Step(cfg, mid, w, RecordBranches(t, [id]), Good(id)) == (Recording(cfg, mid, id), Done(Ok(())))
  {
    hide MergeData, RecordPatch, BranchInput;
    assert [] + [id] == [id];
  }

  /** A worker about to spawn spawns its one branch and records it. */
  lemma Spawns(cfg: Config, actions: seq<Action>, sys: Sys, s: Shared, w: WorkerId, t: Task, id: TaskId)
    returns (later: seq<Action>)
    requires Reach(cfg, actions) == Put(sys, s, w, Spawn(t, [])) && ForksOne(cfg, t) && id !in s.branches
    ensures Reach(cfg, later) == Put(sys, Recording(cfg, Spawned(cfg, s, t, id), id), w, Done(Ok(())))
    ensures Succeeds(actions) ==> Succeeds(later)
    ensures OnlyWorker(actions, w) ==> OnlyWorker(later, w)
  {
    hide Reach, Step, Recording, Spawned;
    var g, mid := Good(id), Spawned(cfg, s, t, id);
    SpawnSteps(cfg, s, w, t, id);
    Acts(cfg, actions, sys, s, w, Spawn(t, []), g, mid, AnnounceBranch(t, [id]));
    var b1 := actions + [Act(w, g)];
    Acts(cfg, b1, sys, mid, w, AnnounceBranch(t, [id]), g, mid, Spawn(t, [id]));
    var b2 := b1 + [Act(w, g)];
    Acts(cfg, b2, sys, mid, w, Spawn(t, [id]), g, mid, RecordBranches(t, [id]));
    var b3 := b2 + [Act(w, g)];
    Acts(cfg, b3, sys, mid, w, RecordBranches(t, [id]), g, Recording(cfg, mid, id), Done(Ok(())));
    later := b3 + [Act(w, g)];
  }

  const NO_OUTPUT := Obj(map["_no_output" := Bool(true)])

  function OneResult(id: TaskId): Results {
    map[id := Finished(NO_OUTPUT)]
  }

  /** The one recorded branch has completed without output, and the fork leads to `to` automatically. */
  predicate Joinable(cfg: Config, s: Shared, id: TaskId, to: StateName) {
    && ForksOne(cfg, s.task) && StateOf(cfg, s.task).transitions == Auto(to) && cfg.isUuid(id)
    && Recorded(s.task.stateData) == [id]
    && id in s.branches && s.branches[id].status == Completed && s.branches[id].output == None
    && to in cfg.def.states && cfg.def.states[to].onEnter == None
  }

  function JoinMove(s: Shared, id: TaskId, to: StateName): Move {
    Move(s.task, to, Joined(OneResult(id), false))
  }

  function JoinedShared(cfg: Config, s: Shared, w: WorkerId, id: TaskId, to: StateName): Shared {
    CommitMove(cfg, MergeData(cfg, s, ResultsPatch(OneResult(id), false)), w, JoinMove(s, id, to))
  }

  lemma JoinSteps(cfg: Config, s: Shared, w: WorkerId, id: TaskId, to: StateName)
    requires Joinable(cfg, s, id, to)
    ensures var t, m, merged := s.task, JoinMove(s, id, to), MergeData(cfg, s, ResultsPatch(OneResult(id), false));
            var s' := JoinedShared(cfg, s, w, id, to);
            var scan := Scan(true, false, OneResult(id));
            && Step(cfg, s, w, ReadTask(0), Good(id)) == (s, ScanBranches(t, [id], 0, Scan(true, false, map[])))
            && Step(cfg, s, w, ScanBranches(t, [id], 0, Scan(true, false, map[])), Good(id))
            == (s, ScanBranches(t, [id], 1, scan))
            && Step(cfg, s, w, ScanBranches(t, [id], 1, scan), Good(id)) == (s, CheckVersion(t, scan.results, false))
            && Step(cfg, s, w, CheckVersion(t, scan.results, false), Good(id)) == (s, MergeResults(t, scan.results, false))
            && Step(cfg, s, w, MergeResults(t, scan.results, false), Good(id)) == (merged, Commit(m))
            && Step(cfg, merged, w, Commit(m), Good(id)) == (s', Announce(m))
            && Step(cfg, s', w, Announce(m), Good(id)) == (s', OnEnter(m, 0))
            && Step(cfg, s', w, OnEnter(m, 0), Good(id)) == (s', Done(Ok(())))
  {
    hide MergeData, ResultsPatch, StatusFor, Recorded;
    assert FirstAuto(Auto(to), 0) == Some(0);
    MergeVersion(cfg, s, ResultsPatch(OneResult(id), false));
    assert ScanOne(id, Some(s.branches[id]), Scan(true, false, map[])) == Scan(true, false, OneResult(id));
  }

  lemma MergeVersion(cfg: Config, s: Shared, patch: Fields)
    ensures MergeData(cfg, s, patch).task.version == s.task.version
  {
  }

  /** A worker starts, finds the recorded branch completed, and joins. */
  lemma Joins(cfg: Config, actions: seq<Action>, sys: Sys, w: WorkerId, id: TaskId, to: StateName)
    returns (later: seq<Action>)
    requires Reach(cfg, actions) == sys && CanLaunch(sys, w) && Joinable(cfg, sys.shared, id, to)
    ensures Reach(cfg, later) == Put(sys, JoinedShared(cfg, sys.shared, w, id, to), w, Done(Ok(())))
    ensures Succeeds(actions) ==> Succeeds(later)
    ensures OnlyWorker(actions, w) ==> OnlyWorker(later, w)
  {
    hide Reach, Step, Joinable, JoinedShared, MergeData, ResultsPatch;
    var g, s, m := Good(id), sys.shared, JoinMove(sys.shared, id, to);
    var t, r, none := s.task, OneResult(id), Scan(true, false, map[]);
    var merged, s' := MergeData(cfg, s, ResultsPatch(r, false)), JoinedShared(cfg, s, w, id, to);
    JoinSteps(cfg, s, w, id, to);
    Launches(cfg, actions, sys, w);
    var b0 := actions + [Launch(w)];
    Acts(cfg, b0, sys, s, w, ReadTask(0), g, s, ScanBranches(t, [id], 0, none));
    var b1 := b0 + [Act(w, g)];
    Acts(cfg, b1, sys, s, w, ScanBranches(t, [id], 0, none), g, s, ScanBranches(t, [id], 1, Scan(true, false, r)));
    var b2 := b1 + [Act(w, g)];
    Acts(cfg, b2, sys, s, w, ScanBranches(t, [id], 1, Scan(true, false, r)), g, s, CheckVersion(t, r, false));
    var b3 := b2 + [Act(w, g)];
    Acts(cfg, b3, sys, s, w, CheckVersion(t, r, false), g, s, MergeResults(t, r, false));
    var b4 := b3 + [Act(w, g)];
    Acts(cfg, b4, sys, s, w, MergeResults(t, r, false), g, merged, Commit(m));
    var b5 := b4 + [Act(w, g)];
    Acts(cfg, b5, sys, merged, w, Commit(m), g, s', Announce(m));
    var b6 := b5 + [Act(w, g)];
    Acts(cfg, b6, sys, s', w, Announce(m), g, s', OnEnter(m, 0));
    var b7 := b6 + [Act(w, g)];
    Acts(cfg, b7, sys, s', w, OnEnter(m, 0), g, s', Done(Ok(())));
    later := b7 + [Act(w, g)];
  }

  function WithCompleted(s: Shared, id: TaskId): Shared
    requires id in s.branches
  {
    s.(branches := s.branches[id := s.branches[id].(status := Completed, output := None)])
  }

  /** A branch finishes on its own. */
  lemma Finishes(cfg: Config, actions: seq<Action>, sys: Sys, id: TaskId)
    requires Reach(cfg, actions) == sys && id in sys.shared.branches
    ensures Reach(cfg, actions + [UpdateBranch(id, Completed, None)]) == sys.(shared := WithCompleted(sys.shared, id))
  {
    hide Reach;
    OneMore(cfg, actions, UpdateBranch(id, Completed, None));
  }

  /** What recording leaves alone, and what it writes. */
  lemma RecordingExactly(cfg: Config, s: Shared, id: TaskId)
    ensures var s' := Recording(cfg, s, id);
            && s'.branches == s.branches && s'.log == s.log
            && s'.task.currentState == s.task.currentState && s'.task.version == s.task.version
            && s'.task.status == s.task.status && ("error" in s'.task.stateData <==> "error" in s.task.stateData)
            && Recorded(s'.task.stateData) == [id]
  {
    RecordReads(cfg, s, All, [id], 0);
  }

  lemma AtForkExactly(next: StateName, timeout: Option<nat>)
    requires IsNext(next)
    ensures var cfg := Cfg(next, timeout);
            var s := AtFork(cfg);
            && ForksOne(cfg, s.task) && StateOf(cfg, s.task).transitions == Auto(next) && s.branches == map[]
            && s.task.currentState == "fork" && s.task.stateData == map[] && Recorded(s.task.stateData) == []
  {
  }

  lemma ReadAtFork(cfg: Config, s: Shared, w: WorkerId, i: nat)
    requires ForksOne(cfg, s.task) && Recorded(s.task.stateData) == []
    ensures Step(cfg, s, w, ReadTask(i), Good("")) == (s, Spawn(s.task, []))
  {
  }

  /** Worker 0 has brought the new task to the fork and is about to spawn. */
  lemma AboutToSpawn(next: StateName, timeout: Option<nat>) returns (later: seq<Action>)
    requires IsNext(next)
    ensures var cfg := Cfg(next, timeout);
            Reach(cfg, later) == Put(Init(cfg), AtFork(cfg), 0, Spawn(AtFork(cfg).task, []))
    ensures Succeeds(later)
    ensures OnlyWorker(later, 0)
  {
    var cfg := Cfg(next, timeout);
    LeadsThere(next, timeout);
    var before := Arrives(cfg);
    AtForkExactly(next, timeout);
    ReadAtFork(cfg, AtFork(cfg), 0, 1);
    hide Reach, Step, AtFork, Init;
    Acts(cfg, before, Init(cfg), AtFork(cfg), 0, ReadTask(1), Good(""), AtFork(cfg), Spawn(AtFork(cfg).task, []));
    later := before + [Act(0, Good(""))];
  }

  // ── two workers spawn ──

  lemma EndIsEnd(next: StateName, timeout: Option<nat>)
    ensures var cfg := Cfg(next, timeout);
            cfg.def.HasType("end", End) && cfg.def.states["end"].onEnter == None && forall id :: cfg.isUuid(id)
  {
  }

  /** The store after worker 0 spawned "b" and worker 1 spawned "c", and "c" completed. */
  function Twice(cfg: Config): Shared {
    var t := AtFork(cfg).task;
    var one := Recording(cfg, Spawned(cfg, AtFork(cfg), t, "b"), "b");
    var two := Recording(cfg, Spawned(cfg, one, t, "c"), "c");
    WithCompleted(two, "c")
  }

  lemma TwiceFrom(cfg: Config, s: Shared)
    requires ForksOne(cfg, s.task) && StateOf(cfg, s.task).transitions == Auto("end") && "error" !in s.task.stateData
    requires cfg.def.HasType("end", End) && cfg.def.states["end"].onEnter == None && forall id :: cfg.isUuid(id)
    requires "b" !in s.branches && "c" !in s.branches
    ensures var one := Recording(cfg, Spawned(cfg, s, s.task, "b"), "b");
            var two := Recording(cfg, Spawned(cfg, one, s.task, "c"), "c");
            var s' := WithCompleted(two, "c");
            && "c" !in one.branches && Joinable(cfg, s', "c", "end") && Waits(cfg, s'.task)
            && "b" in s'.branches && s'.branches["b"].status == Running && "error" !in s'.task.stateData
  {
    hide Recording, Recorded;
    RecordingExactly(cfg, Spawned(cfg, s, s.task, "b"), "b");
    var one := Recording(cfg, Spawned(cfg, s, s.task, "b"), "b");
    RecordingExactly(cfg, Spawned(cfg, one, s.task, "c"), "c");
  }

  lemma TwiceExactly()
    ensures var s := Twice(Cfg("end", None));
            && Joinable(Cfg("end", None), s, "c", "end") && Waits(Cfg("end", None), s.task)
            && "b" in s.branches && s.branches["b"].status == Running && "error" !in s.task.stateData
  {
    hide AtFork, Recording, Recorded, Spawned, Cfg, Joinable, Waits;
    var cfg := Cfg("end", None);
    AtForkExactly("end", None);
    EndIsEnd("end", None);
    TwiceFrom(cfg, AtFork(cfg));
  }

  lemma JoinedExactly(cfg: Config, s: Shared, w: WorkerId, id: TaskId, to: StateName)
    requires Joinable(cfg, s, id, to) && "error" !in s.task.stateData
    ensures var s' := JoinedShared(cfg, s, w, id, to);
            && s'.branches == s.branches && s'.task.currentState == to
            && s'.log == s.log + [Committed(w, JoinMove(s, id, to))]
            && Recorded(s'.task.stateData) == [id] && "error" !in s'.task.stateData
            && (cfg.def.HasType(to, End) ==> s'.task.status == Completed)
  {
    ResultsSpare(OneResult(id), false);
    SparingMerge(cfg, s, ResultsPatch(OneResult(id), false));
    var merged := MergeData(cfg, s, ResultsPatch(OneResult(id), false));
    assert "error" !in merged.task.stateData;
  }

  /** The whole join, seen from outside. */
  ghost predicate JoinedTo(cfg: Config, sys: Sys, w: WorkerId, id: TaskId, to: StateName, sys': Sys) {
    var s, s' := sys.shared, sys'.shared;
    && sys'.workers == sys.workers[w := Done(Ok(()))]
    && s'.branches == s.branches && s'.task.currentState == to
    && s'.log == s.log + [Committed(w, JoinMove(s, id, to))]
    && Recorded(s'.task.stateData) == [id] && "error" !in s'.task.stateData
    && (cfg.def.HasType(to, End) ==> s'.task.status == Completed)
  }

  lemma JoinsTo(cfg: Config, actions: seq<Action>, sys: Sys, w: WorkerId, id: TaskId, to: StateName)
    returns (later: seq<Action>)
    requires Reach(cfg, actions) == sys && CanLaunch(sys, w) && Joinable(cfg, sys.shared, id, to)
    requires "error" !in sys.shared.task.stateData
    ensures JoinedTo(cfg, sys, w, id, to, Reach(cfg, later))
    ensures Succeeds(actions) ==> Succeeds(later)
    ensures OnlyWorker(actions, w) ==> OnlyWorker(later, w)
  {
    JoinedExactly(cfg, sys.shared, w, id, to);
    hide Reach, Joinable, JoinedShared, Recorded, JoinMove, Succeeds, OnlyWorker;
    later := Joins(cfg, actions, sys, w, id, to);
  }

  /** Worker 1 has read the fork too, before worker 0 spawned anything. */
  lemma BothAboutToSpawn() returns (later: seq<Action>)
    ensures var cfg := Cfg("end", None);
            var t := AtFork(cfg).task;
            Reach(cfg, later) == Sys(AtFork(cfg), map[0 := Spawn(t, []), 1 := Spawn(t, [])])
    ensures Succeeds(later)
  {
    hide Reach, Step, AtFork, Init, Recorded, Cfg, ForksOne, Succeeds;
    var cfg := Cfg("end", None);
    var s, t := AtFork(cfg), AtFork(cfg).task;
    var b0 := AboutToSpawn("end", None);
    AtForkExactly("end", None);
    ReadAtFork(cfg, s, 1, 0);
    NoWorkers(cfg);
    var sys := Put(Init(cfg), s, 0, Spawn(t, []));
    Launches(cfg, b0, sys, 1);
    Acts(cfg, b0 + [Launch(1)], sys, s, 1, ReadTask(0), Good(""), s, Spawn(t, []));
    later := b0 + [Launch(1)] + [Act(1, Good(""))];
    SecondSucceeds(b0);
    assert sys.workers[1 := Spawn(t, [])] == map[0 := Spawn(t, []), 1 := Spawn(t, [])];
  }

  lemma SecondSucceeds(actions: seq<Action>)
    requires Succeeds(actions)
    ensures Succeeds(actions + [Launch(1)] + [Act(1, Good(""))])
    ensures Succeeds(actions + [UpdateBranch("c", Completed, None)])
  {
  }

  /** Both record what they spawned, worker 1 last. */
  lemma BothRecord(cfg: Config, actions: seq<Action>, s: Shared, t: Task) returns (later: seq<Action>)
    requires Reach(cfg, actions) == Sys(s, map[0 := Spawn(t, []), 1 := Spawn(t, [])])
    requires ForksOne(cfg, t) && "b" !in s.branches && "c" !in s.branches
    ensures var one := Recording(cfg, Spawned(cfg, s, t, "b"), "b");
            var two := Recording(cfg, Spawned(cfg, one, t, "c"), "c");
            Reach(cfg, later) == Sys(two, map[0 := Done(Ok(())), 1 := Done(Ok(()))]) && "c" in two.branches
    ensures Succeeds(actions) ==> Succeeds(later)
  {
    var one := Recording(cfg, Spawned(cfg, s, t, "b"), "b");
    var two := Recording(cfg, Spawned(cfg, one, t, "c"), "c");
    RecordingExactly(cfg, Spawned(cfg, s, t, "b"), "b");
    RecordingExactly(cfg, Spawned(cfg, one, t, "c"), "c");
    assert "c" !in one.branches;
    hide Reach, Recording, Recorded, ForksOne, Succeeds, Spawned;
    var sys := Sys(s, map[0 := Spawn(t, []), 1 := Spawn(t, [])]);
    assert sys.workers[0 := Spawn(t, [])] == sys.workers;
    var mid := Spawns(cfg, actions, sys, s, 0, t, "b");
    var sys' := Put(sys, one, 0, Done(Ok(())));
    assert sys'.workers[1 := Spawn(t, [])] == sys'.workers;
    later := Spawns(cfg, mid, sys', one, 1, t, "c");
    assert sys'.workers[1 := Done(Ok(()))] == map[0 := Done(Ok(())), 1 := Done(Ok(()))];
  }

  lemma BothSpawn() returns (later: seq<Action>)
    ensures var cfg := Cfg("end", None);
            Reach(cfg, later) == Sys(Twice(cfg), map[0 := Done(Ok(())), 1 := Done(Ok(()))])
    ensures Succeeds(later)
  {
    hide Reach, AtFork, Recording, Recorded, Cfg, ForksOne, Succeeds, Spawned, Joinable, Waits;
    var cfg := Cfg("end", None);
    var t := AtFork(cfg).task;
    AtForkExactly("end", None);
    TwiceExactly();
    var b0 := BothAboutToSpawn();
    var b1 := BothRecord(cfg, b0, AtFork(cfg), t);
    var two := Recording(cfg, Spawned(cfg, Recording(cfg, Spawned(cfg, AtFork(cfg), t, "b"), "b"), t, "c"), "c");
    Finishes(cfg, b1, Sys(two, map[0 := Done(Ok(())), 1 := Done(Ok(()))]), "c");
    later := b1 + [UpdateBranch("c", Completed, None)];
    SecondSucceeds(b1);
  }

  /** The parent is completed through a join under `All` while a branch spawned for it is still running. */
  ghost predicate LosesBranch(cfg: Config, s: Shared, id: TaskId) {
    && s.task.currentState == "end" && s.task.status == Completed
    && id in s.branches && s.branches[id].status == Running
    && s.log != []
    && var m := s.log[|s.log| - 1].move; m.cause.Joined? && !m.cause.failed && Waits(cfg, m.snap)
  }

  lemma JoinLosesBranch(cfg: Config, sys: Sys, w: WorkerId, id: TaskId, lost: TaskId, sys': Sys)
    requires JoinedTo(cfg, sys, w, id, "end", sys') && cfg.def.HasType("end", End) && Waits(cfg, sys.shared.task)
    requires lost in sys.shared.branches && sys.shared.branches[lost].status == Running
    ensures LosesBranch(cfg, sys'.shared, lost)
  {
    hide Recorded, Waits;
  }

  lemma JoinsWithout(cfg: Config, before: seq<Action>, sys: Sys, id: TaskId, lost: TaskId) returns (actions: seq<Action>)
    requires Reach(cfg, before) == sys && CanLaunch(sys, 0) && Joinable(cfg, sys.shared, id, "end")
    requires "error" !in sys.shared.task.stateData && cfg.def.HasType("end", End) && Waits(cfg, sys.shared.task)
    requires lost in sys.shared.branches && sys.shared.branches[lost].status == Running
    ensures LosesBranch(cfg, Reach(cfg, actions).shared, lost)
    ensures Succeeds(before) ==> Succeeds(actions)
    ensures OnlyWorker(before, 0) ==> OnlyWorker(actions, 0)
  {
    hide Reach, Joinable, Waits, Succeeds, OnlyWorker, LosesBranch, JoinedTo;
    actions := JoinsTo(cfg, before, sys, 0, id, "end");
    JoinLosesBranch(cfg, sys, 0, id, lost, Reach(cfg, actions));
  }

  /** Two workers read the fork before anything is recorded, and both spawn: the second record replaces the first. Every
      operation succeeds, the fork joins under `All`, and the parent is completed while branch "b" is still running. */
  lemma SpawnedBranchIsLost() returns (actions: seq<Action>)
    ensures Registered(Cfg("end", None)) && Succeeds(actions)
    ensures LosesBranch(Cfg("end", None), Reach(Cfg("end", None), actions).shared, "b")
  {
    hide Reach, Twice, Registered, Cfg, Joinable, Waits, Succeeds, LosesBranch;
    var cfg := Cfg("end", None);
    DefRegistered("end", None);
    TwiceExactly();
    EndIsEnd("end", None);
    var before := BothSpawn();
    actions := JoinsWithout(cfg, before, Reach(cfg, before), "c", "b");
  }

  // ── two forks, one after the other ──

  /** The store after the fork's one branch was spawned and recorded. */
  function Forked(cfg: Config): Shared {
    Recording(cfg, Spawned(cfg, AtFork(cfg), AtFork(cfg).task, "b"), "b")
  }

  lemma ForkedExactly(next: StateName, timeout: Option<nat>)
    requires IsNext(next)
    ensures var cfg, s := Cfg(next, timeout), Forked(Cfg(next, timeout));
            && ForksOne(cfg, s.task) && StateOf(cfg, s.task).transitions == Auto(next)
            && StateOf(cfg, s.task).timeoutSecs == timeout && s.task.currentState == "fork"
            && Recorded(s.task.stateData) == ["b"] && SpawnedAt(s.task.stateData) == Some(0)
            && s.branches.Keys == {"b"} && s.branches["b"].status == Running
            && "error" !in s.task.stateData && |s.log| == 1
            && Joinable(cfg, WithCompleted(s, "b"), "b", next)
  {
    var cfg := Cfg(next, timeout);
    AtForkExactly(next, timeout);
    assert |AtFork(cfg).log| == 1 && StateOf(cfg, AtFork(cfg).task).timeoutSecs == timeout;
    SpawnedAtReads(cfg, Spawned(cfg, AtFork(cfg), AtFork(cfg).task, "b"), All, ["b"], 0);
    hide AtFork, Recording, Recorded, SpawnedAt;
    RecordingExactly(cfg, Spawned(cfg, AtFork(cfg), AtFork(cfg).task, "b"), "b");
  }

  lemma GetsForked(next: StateName, timeout: Option<nat>) returns (later: seq<Action>)
    requires IsNext(next)
    ensures var cfg := Cfg(next, timeout); Reach(cfg, later) == Sys(Forked(cfg), map[0 := Done(Ok(()))])
    ensures Succeeds(later)
  {
    hide Reach, AtFork, Recording, Recorded, Cfg, ForksOne, Succeeds, Spawned, Init;
    var cfg := Cfg(next, timeout);
    AtForkExactly(next, timeout);
    NoWorkers(cfg);
    var b0 := AboutToSpawn(next, timeout);
    later := Spawns(cfg, b0, Init(cfg), AtFork(cfg), 0, AtFork(cfg).task, "b");
    assert Init(cfg).workers[0 := Done(Ok(()))] == map[0 := Done(Ok(()))];
  }

  /** The task went through both forks to its end, and only this branch was ever spawned. */
  ghost predicate PassesBoth(s: Shared, id: TaskId) {
    && s.task.currentState == "end" && s.task.status == Completed && |s.log| == 3
    && s.log[1].move.snap.currentState == "fork" && s.log[2].move.snap.currentState == "again"
    && s.branches.Keys == {id}
  }

  lemma JoinsPassBoth(cfg: Config, sys0: Sys, sys1: Sys, sys2: Sys, w: WorkerId, id: TaskId)
    requires JoinedTo(cfg, sys0, w, id, "again", sys1) && JoinedTo(cfg, sys1, w, id, "end", sys2)
    requires cfg.def.HasType("end", End)
    requires sys0.shared.task.currentState == "fork" && |sys0.shared.log| == 1 && sys0.shared.branches.Keys == {id}
    ensures PassesBoth(sys2.shared, id)
  {
    hide Recorded;
  }

  predicate ForksTwice(def: FlowDef) {
    && def.HasType("fork", Parallel) && def.states["fork"].branches == Some(BRANCHES)
    && def.HasType("again", Parallel) && def.states["again"].branches == Some(BRANCHES)
  }

  lemma BothHaveBranches()
    ensures ForksTwice(Cfg("again", None).def)
  {
  }

  /** The second fork joins on the branch of the first: the task passes both forks, each with a branch to spawn, and one
      branch was ever spawned. */
  lemma SecondForkSpawnsNothing() returns (actions: seq<Action>)
    ensures Registered(Cfg("again", None)) && Succeeds(actions)
    ensures ForksTwice(Cfg("again", None).def)
    ensures PassesBoth(Reach(Cfg("again", None), actions).shared, "b")
  {
    hide Reach, Registered, Recorded, Forked, Joinable, Cfg, Succeeds, ForksOne, SpawnedAt, JoinedTo, PassesBoth, WithCompleted;
    var cfg := Cfg("again", None);
    DefRegistered("again", None);
    EndIsEnd("again", None);
    ForkedExactly("again", None);
    BothHaveBranches();
    var s0, done := WithCompleted(Forked(cfg), "b"), map[0 := Done(Ok(()))];
    FinishedKeys(Forked(cfg), "b");
    var b0 := GetsForked("again", None);
    Finishes(cfg, b0, Sys(Forked(cfg), done), "b");
    var b1 := b0 + [UpdateBranch("b", Completed, None)];
    UpdateSucceeds(b0);
    var b2 := JoinsTo(cfg, b1, Sys(s0, done), 0, "b", "again");
    JoinedAgain(cfg, Sys(s0, done), Reach(cfg, b2), "b");
    JoinableAgain(Reach(cfg, b2).shared);
    actions := JoinsTo(cfg, b2, Reach(cfg, b2), 0, "b", "end");
    JoinsPassBoth(cfg, Sys(s0, done), Reach(cfg, b2), Reach(cfg, actions), 0, "b");
  }

  lemma FinishedKeys(s: Shared, id: TaskId)
    requires id in s.branches
    ensures var s' := WithCompleted(s, id);
            && s'.branches.Keys == s.branches.Keys && id in s'.branches
            && s'.branches[id].status == Completed && s'.branches[id].output == None
            && s'.task == s.task && s'.log == s.log
  {
  }

  lemma JoinedAgain(cfg: Config, sys: Sys, sys': Sys, id: TaskId)
    requires JoinedTo(cfg, sys, 0, id, "again", sys') && id in sys.shared.branches
    requires sys.shared.branches[id].status == Completed && sys.shared.branches[id].output == None
    ensures CanLaunch(sys', 0) && "error" !in sys'.shared.task.stateData
    ensures sys'.shared.task.currentState == "again" && Recorded(sys'.shared.task.stateData) == [id]
    ensures id in sys'.shared.branches && sys'.shared.branches[id].status == Completed
    ensures sys'.shared.branches[id].output == None
  {
    hide Recorded;
  }

  lemma UpdateSucceeds(actions: seq<Action>)
    ensures Succeeds(actions) ==> Succeeds(actions + [UpdateBranch("b", Completed, None)])
    ensures Succeeds(actions) ==> forall w, c: Choice :: c.ok ==> Succeeds(actions + [Launch(w)]) && Succeeds(actions + [Act(w, c)])
  {
  }

  lemma JoinableAgain(s: Shared)
    requires s.task.currentState == "again" && Recorded(s.task.stateData) == ["b"]
    requires "b" in s.branches && s.branches["b"].status == Completed && s.branches["b"].output == None
    ensures Joinable(Cfg("again", None), s, "b", "end")
  {
  }

  // ── a branch finishes between scan and sweep ──

  /** The one recorded branch is running and its time is up. */
  predicate Sweepable(cfg: Config, s: Shared, id: TaskId) {
    && ForksOne(cfg, s.task) && cfg.isUuid(id) && Recorded(s.task.stateData) == [id]
    && StateOf(cfg, s.task).timeoutSecs == Some(0) && SpawnedAt(s.task.stateData) == Some(0)
    && id in s.branches && s.branches[id].status == Running
  }

  lemma SweepSteps(cfg: Config, s: Shared, w: WorkerId, id: TaskId)
    requires Sweepable(cfg, s, id)
    ensures var t, none, some := s.task, Scan(true, false, map[]), Scan(false, false, map[]);
            && Step(cfg, s, w, ReadTask(0), Good(id)) == (s, ScanBranches(t, [id], 0, none))
            && Step(cfg, s, w, ScanBranches(t, [id], 0, none), Good(id)) == (s, ScanBranches(t, [id], 1, some))
            && Step(cfg, s, w, ScanBranches(t, [id], 1, some), Good(id)) == (s, Sweep(t, [id], 0, some))
            && Step(cfg, WithCompleted(s, id), w, Sweep(t, [id], 0, some), Good(id)).0.branches[id].status
            == Failed(TIMEOUT_MESSAGE)
  {
    hide Recorded, SpawnedAt;
    assert TimedOut(StateOf(cfg, s.task), s.task, 0);
  }

  /** A worker scans the one branch, which is running, and finds the fork timed out. */
  lemma Sweeps(cfg: Config, actions: seq<Action>, sys: Sys, w: WorkerId, id: TaskId) returns (later: seq<Action>)
    requires Reach(cfg, actions) == sys && CanLaunch(sys, w) && Sweepable(cfg, sys.shared, id)
    ensures Reach(cfg, later) == Put(sys, sys.shared, w, Sweep(sys.shared.task, [id], 0, Scan(false, false, map[])))
    ensures Succeeds(actions) ==> Succeeds(later)
  {
    hide Reach, Step, Sweepable;
    var g, s, t := Good(id), sys.shared, sys.shared.task;
    var none, some := Scan(true, false, map[]), Scan(false, false, map[]);
    SweepSteps(cfg, s, w, id);
    Launches(cfg, actions, sys, w);
    var b2 := actions + [Launch(w)];
    Acts(cfg, b2, sys, s, w, ReadTask(0), g, s, ScanBranches(t, [id], 0, none));
    var b3 := b2 + [Act(w, g)];
    Acts(cfg, b3, sys, s, w, ScanBranches(t, [id], 0, none), g, s, ScanBranches(t, [id], 1, some));
    var b4 := b3 + [Act(w, g)];
    Acts(cfg, b4, sys, s, w, ScanBranches(t, [id], 1, some), g, s, Sweep(t, [id], 0, some));
    later := b4 + [Act(w, g)];
  }

  lemma ForkedSweepable()
    ensures var cfg := Cfg("end", Some(0)); Sweepable(cfg, Forked(cfg), "b")
  {
    hide Recorded, Forked, SpawnedAt, Cfg, ForksOne, Joinable;
    ForkedExactly("end", Some(0));
    EndIsEnd("end", Some(0));
  }

  lemma ReachesSweep() returns (later: seq<Action>)
    ensures var cfg := Cfg("end", Some(0));
            var s := Forked(cfg);
            Reach(cfg, later) == Sys(s, map[0 := Sweep(s.task, ["b"], 0, Scan(false, false, map[]))])
    ensures Succeeds(later)
  {
    hide Reach, Registered, Recorded, Forked, SpawnedAt, Cfg, Succeeds, ForksOne, Joinable, Sweepable;
    var cfg := Cfg("end", Some(0));
    ForkedSweepable();
    var b1 := GetsForked("end", Some(0));
    var sys := Reach(cfg, b1);
    later := Sweeps(cfg, b1, sys, 0, "b");
    var pc := Sweep(Forked(cfg).task, ["b"], 0, Scan(false, false, map[]));
    assert sys.workers[0 := pc] == map[0 := pc];
  }

  /** A worker reads branch "b" running and finds the fork timed out; "b" completes; the sweep fails it all the same. */
  lemma CompletedBranchOverwritten() returns (actions: seq<Action>)
    ensures Registered(Cfg("end", Some(0))) && Succeeds(actions) && actions != []
    ensures var cfg, n := Cfg("end", Some(0)), |actions| - 1;
            var s, s' := Reach(cfg, actions[..n]).shared, Reach(cfg, actions).shared;
            && actions[n].Act? && "b" in s.branches && "b" in s'.branches
            && s.branches["b"].status == Completed && s'.branches["b"].status == Failed(TIMEOUT_MESSAGE)
  {
    hide Reach, Step, Registered, Recorded, Forked, SpawnedAt, Cfg, Succeeds, ForksOne, Joinable;
    var cfg, g := Cfg("end", Some(0)), Good("b");
    var s := Forked(cfg);
    var sweep := Sweep(s.task, ["b"], 0, Scan(false, false, map[]));
    DefRegistered("end", Some(0));
    ForkedExactly("end", Some(0));
    EndIsEnd("end", Some(0));
    SweepSteps(cfg, s, 0, "b");
    StepBranches(cfg, WithCompleted(s, "b"), 0, sweep, g);
    var b5 := ReachesSweep();
    Finishes(cfg, b5, Sys(s, map[0 := sweep]), "b");
    var b6 := b5 + [UpdateBranch("b", Completed, None)];
    UpdateSucceeds(b5);
    UpdateSucceeds(b6);
    OneMoreAct(cfg, b6, Sys(WithCompleted(s, "b"), map[0 := sweep]), 0, g);
    actions := b6 + [Act(0, g)];
    assert actions[..|actions| - 1] == b6;
    assert "b" in Step(cfg, WithCompleted(s, "b"), 0, sweep, g).0.branches.Keys;
  }

  // ── an attempt to spawn fails half-way ──

  /** The worker creates its branch and cannot publish it. */
  lemma AbandonSteps(cfg: Config, s: Shared, w: WorkerId, t: Task, id: TaskId)
    requires ForksOne(cfg, t) && id !in s.branches
    ensures var mid := Spawned(cfg, s, t, id);
            && Step(cfg, s, w, Spawn(t, []), Good(id)) == (mid, AnnounceBranch(t, [id]))
            && Step(cfg, mid, w, AnnounceBranch(t, [id]), Choice(false, 0, "")) == (mid, Done(Err(BusFault)))
  {
    hide BranchInput;
    assert [] + [id] == [id];
  }

  lemma Abandons(cfg: Config, actions: seq<Action>, sys: Sys, s: Shared, t: Task) returns (later: seq<Action>)
    requires Reach(cfg, actions) == Put(sys, s, 0, Spawn(t, [])) && t == s.task && ForksOne(cfg, t)
    requires "b" !in s.branches
    ensures Reach(cfg, later) == Put(sys, Spawned(cfg, s, t, "b"), 0, Done(Err(BusFault)))
    ensures OnlyWorker(actions, 0) ==> OnlyWorker(later, 0)
  {
    var mid, fail := Spawned(cfg, s, t, "b"), Choice(false, 0, "");
    AbandonSteps(cfg, s, 0, t, "b");
    hide Reach, Step, Spawned, ForksOne;
    Acts(cfg, actions, sys, s, 0, Spawn(t, []), Good("b"), mid, AnnounceBranch(t, ["b"]));
    var b1 := actions + [Act(0, Good("b"))];
    Acts(cfg, b1, sys, mid, 0, AnnounceBranch(t, ["b"]), fail, mid, Done(Err(BusFault)));
    later := b1 + [Act(0, fail)];
  }

  /** Started again, the worker finds no record and spawns anew: the first branch stays unrecorded. */
  lemma Retries(cfg: Config, actions: seq<Action>, sys: Sys, mid: Shared, t: Task) returns (later: seq<Action>)
    requires Reach(cfg, actions) == Put(sys, mid, 0, Done(Err(BusFault))) && t == mid.task && ForksOne(cfg, t)
    requires Recorded(t.stateData) == [] && "c" !in mid.branches
    ensures Reach(cfg, later) == Put(sys, Recording(cfg, Spawned(cfg, mid, t, "c"), "c"), 0, Done(Ok(())))
    ensures OnlyWorker(actions, 0) ==> OnlyWorker(later, 0)
  {
    ReadAtFork(cfg, mid, 0, 0);
    hide Reach, Step, Spawned, Recording, ForksOne, Recorded;
    var ended := Put(sys, mid, 0, Done(Err(BusFault)));
    Launches(cfg, actions, ended, 0);
    assert ended.workers[0 := ReadTask(0)] == sys.workers[0 := ReadTask(0)];
    var b3 := actions + [Launch(0)];
    Acts(cfg, b3, sys, mid, 0, ReadTask(0), Good(""), mid, Spawn(t, []));
    later := Spawns(cfg, b3 + [Act(0, Good(""))], sys, mid, 0, t, "c");
  }

  /** The store after that, with "c" completed. */
  function Abandoned(cfg: Config): Shared {
    var s := AtFork(cfg);
    WithCompleted(Recording(cfg, Spawned(cfg, Spawned(cfg, s, s.task, "b"), s.task, "c"), "c"), "c")
  }

  lemma AbandonedFrom(cfg: Config, s: Shared)
    requires ForksOne(cfg, s.task) && StateOf(cfg, s.task).transitions == Auto("end") && "error" !in s.task.stateData
    requires cfg.def.HasType("end", End) && cfg.def.states["end"].onEnter == None && forall id :: cfg.isUuid(id)
    requires "b" !in s.branches && "c" !in s.branches
    ensures var two := Recording(cfg, Spawned(cfg, Spawned(cfg, s, s.task, "b"), s.task, "c"), "c");
            var s' := WithCompleted(two, "c");
            && "c" in two.branches && Joinable(cfg, s', "c", "end") && Waits(cfg, s'.task)
            && Spawned(cfg, s, s.task, "b").task == s.task && "c" !in Spawned(cfg, s, s.task, "b").branches
            && "b" in s'.branches && s'.branches["b"].status == Running && "error" !in s'.task.stateData
  {
    hide Recording, Recorded;
    RecordingExactly(cfg, Spawned(cfg, Spawned(cfg, s, s.task, "b"), s.task, "c"), "c");
  }

  lemma AbandonedReached() returns (later: seq<Action>)
    ensures var cfg := Cfg("end", None);
            Reach(cfg, later) == Sys(Abandoned(cfg), map[0 := Done(Ok(()))])
    ensures OnlyWorker(later, 0)
  {
    hide Reach, AtFork, Recording, Recorded, Cfg, ForksOne, OnlyWorker, Spawned, Joinable, Waits, Init;
    var cfg := Cfg("end", None);
    AtForkExactly("end", None);
    EndIsEnd("end", None);
    NoWorkers(cfg);
    AbandonedFrom(cfg, AtFork(cfg));
    var b0 := AboutToSpawn("end", None);
    var ended := Abandons(cfg, b0, Init(cfg), AtFork(cfg), AtFork(cfg).task);
    var b1 := Retries(cfg, ended, Init(cfg), Spawned(cfg, AtFork(cfg), AtFork(cfg).task, "b"), AtFork(cfg).task);
    var sys := Reach(cfg, b1);
    assert sys.workers == map[0 := Done(Ok(()))];
    Finishes(cfg, b1, sys, "c");
    later := b1 + [UpdateBranch("c", Completed, None)];
    UpdateKeepsOnly(b1);
  }

  lemma UpdateKeepsOnly(actions: seq<Action>)
    requires OnlyWorker(actions, 0)
    ensures OnlyWorker(actions + [UpdateBranch("c", Completed, None)], 0)
  {
  }

  /** One worker alone loses a branch too: it creates "b", cannot publish it and gives up; started again it finds no
      record and spawns "c". The parent is completed under `All` while "b" is still running. */
  lemma FailedPublishLosesBranch() returns (actions: seq<Action>)
    ensures Registered(Cfg("end", None)) && OnlyWorker(actions, 0)
    ensures LosesBranch(Cfg("end", None), Reach(Cfg("end", None), actions).shared, "b")
  {
    hide Reach, Abandoned, AtFork, Registered, Cfg, Joinable, Waits, OnlyWorker, LosesBranch, ForksOne, Spawned, Recording;
    var cfg := Cfg("end", None);
    DefRegistered("end", None);
    AtForkExactly("end", None);
    EndIsEnd("end", None);
    AbandonedExactly(cfg);
    var before := AbandonedReached();
    actions := JoinsWithout(cfg, before, Reach(cfg, before), "c", "b");
  }

  lemma AbandonedExactly(cfg: Config)
    requires cfg == Cfg("end", None)
    ensures var s := Abandoned(cfg);
            && Joinable(cfg, s, "c", "end") && Waits(cfg, s.task)
            && "b" in s.branches && s.branches["b"].status == Running && "error" !in s.task.stateData
  {
    hide AtFork, Recording, Recorded, Spawned, Cfg, Joinable, Waits;
    AtForkExactly("end", None);
    EndIsEnd("end", None);
    AbandonedFrom(cfg, AtFork(cfg));
  }
}
