/** What a fork gives its branches, what it records, and when its time is up. */
module FlowFork {
  import opened Wrappers
  import opened JsonValues
  import opened Condition
  import opened Flow
  import opened FlowEngine
  import opened FlowSafety
  import opened FlowTheorems
  import opened FlowHistory
  import opened FlowSpawn

  // ── the input of a branch ──

  /** Without a mapping a branch runs on all of its parent's data. With one it runs on exactly the mapped keys whose source
      key is there, each with the value of its source key. */
  ghost predicate IsInput(data: Fields, def: BranchDef, input: Json) {
    match def.inputMapping
    case None => input == Obj(data)
    case Some(mapping) =>
      && input.Obj?
      && (forall k :: k in input.fields <==> k in mapping && mapping[k] in data)
      && (forall k :: k in input.fields ==> input.fields[k] == data[mapping[k]])
  }

  lemma InputExactly(snap: Task, def: BranchDef, input: Json)
    ensures IsInput(snap.stateData, def, input) <==> input == BranchInput(snap, def)
  {
    if def.inputMapping.Some? && IsInput(snap.stateData, def, input) {
      assert input.fields == BranchInput(snap, def).fields;
    }
  }

  /** Action `n` spawned the branch: its worker, which had read the parent at moment `t`, gave it the input its definition
      asks for out of the parent's data. */
  ghost predicate SpawnedBy(cfg: Config, actions: seq<Action>, id: TaskId, input: Json, n: nat, t: nat) {
    && t <= n < |actions| && actions[n].Act? && actions[n].choice.id == id
    && var sys := Reach(cfg, actions[..n]);
       && actions[n].w in sys.workers && sys.workers[actions[n].w].Spawn?
       && var pc := sys.workers[actions[n].w];
          && Reach(cfg, actions[..t]).shared.task == pc.snap
          && AtParallel(cfg, pc.snap)
          && var defs := StateOf(cfg, pc.snap).branches.GetOr([]);
             |pc.ids| < |defs| && IsInput(pc.snap.stateData, defs[|pc.ids|], input)
  }

  ghost predicate WasSpawned(cfg: Config, actions: seq<Action>, id: TaskId, input: Json) {
    exists n: nat, t: nat :: SpawnedBy(cfg, actions, id, input, n, t)
  }

  lemma SpawnedStays(cfg: Config, actions: seq<Action>, a: Action, id: TaskId, input: Json)
    requires WasSpawned(cfg, actions, id, input)
    ensures WasSpawned(cfg, actions + [a], id, input)
  {
    hide Reach, IsInput;
    var n: nat, t: nat :| SpawnedBy(cfg, actions, id, input, n, t);
    var longer := actions + [a];
    assert longer[..n] == actions[..n] && longer[..t] == actions[..t] && longer[n] == actions[n];
    assert SpawnedBy(cfg, longer, id, input, n, t);
  }

  /** Apart from a worker that spawns, nothing adds a branch or changes the input of one. */
  lemma StepInputs(cfg: Config, s: Shared, w: WorkerId, pc: Pc, c: Choice)
    ensures var (s', pc') := Step(cfg, s, w, pc, c);
            forall id :: id in s'.branches ==>
              || (id in s.branches && s'.branches[id].input == s.branches[id].input)
              || (pc.Spawn? && pc'.AnnounceBranch? && id == c.id && id !in s.branches)
  {
    hide Recorded, Decide, MergeData, RecordPatch, ResultsPatch, BranchInput, AfterRead, AfterFailure, AfterScan,
         AfterSweep, CommitMove, StepOnEnter;
    EnterBranches(cfg, s, pc, c);
    MergeBranches(cfg, s);
    CommitBranches(cfg, s, w, pc);
  }

  lemma SpawnInput(cfg: Config, s: Shared, w: WorkerId, pc: Pc, c: Choice)
    requires pc.Spawn?
    ensures var (s', pc') := Step(cfg, s, w, pc, c);
            pc'.AnnounceBranch? ==>
              && AtParallel(cfg, pc.snap) && c.id in s'.branches
              && var defs := StateOf(cfg, pc.snap).branches.GetOr([]);
                 |pc.ids| < |defs| && s'.branches[c.id].input == BranchInput(pc.snap, defs[|pc.ids|])
  {
    hide BranchInput;
  }

  /** Everything else leaves the branches and their inputs alone too. */
  lemma ApplyInputs(cfg: Config, sys: Sys, a: Action)
    requires !(a.Act? && a.w in sys.workers)
    ensures var s, s' := sys.shared, Apply(cfg, sys, a).shared;
            forall id :: id in s'.branches ==> id in s.branches && s'.branches[id].input == s.branches[id].input
  {
    hide Step;
    MergeBranches(cfg, sys.shared);
  }

  // A worker that spawns holds a task the store once had.

  ghost predicate SpawnSeen(cfg: Config, actions: seq<Action>, pc: Pc) {
    pc.Spawn? || pc.AnnounceBranch? ==> TaskSeen(cfg, actions, pc.snap)
  }

  lemma StepSpawnSeen(cfg: Config, s: Shared, w: WorkerId, pc: Pc, c: Choice)
    ensures var pc' := Step(cfg, s, w, pc, c).1;
            pc'.Spawn? || pc'.AnnounceBranch? ==>
              pc'.snap == s.task || ((pc.Spawn? || pc.AnnounceBranch?) && pc'.snap == pc.snap)
  {
    hide Recorded, Decide, MergeData, RecordPatch, ResultsPatch, BranchInput, CommitMove, StatusFor, ScanOne, SweepScan,
         TimedOut;
  }

  lemma ApplySpawnSeen(cfg: Config, sys: Sys, a: Action, w: WorkerId)
    requires w in Apply(cfg, sys, a).workers
    ensures var pc' := Apply(cfg, sys, a).workers[w];
            pc'.Spawn? || pc'.AnnounceBranch? ==>
              || pc'.snap == sys.shared.task
              || (w in sys.workers && (sys.workers[w].Spawn? || sys.workers[w].AnnounceBranch?)
                  && pc'.snap == sys.workers[w].snap)
  {
    hide Step, MergeData;
    if a.Act? && a.w == w && w in sys.workers { StepSpawnSeen(cfg, sys.shared, w, sys.workers[w], a.choice); }
  }

  lemma {:induction false} SpawnersSaw(cfg: Config, actions: seq<Action>, w: WorkerId)
    ensures w in Reach(cfg, actions).workers ==> SpawnSeen(cfg, actions, Reach(cfg, actions).workers[w])
    decreases |actions|
  {
    if actions == [] {
      assert Reach(cfg, actions).workers == map[];
    } else {
      hide Apply, Reach, TaskSeen;
      var n := |actions| - 1;
      var before, a := actions[..n], actions[n];
      var sys, sys' := Reach(cfg, before), Reach(cfg, actions);
      assert before + [a] == actions;
      OneMore(cfg, before, a);
      SpawnersSaw(cfg, before, w);
      if w in sys'.workers {
        ApplySpawnSeen(cfg, sys, a, w);
        SeenNow(cfg, before, sys.shared.task);
        TaskStaysSeen(cfg, before, a, sys.shared.task);
        var pc' := sys'.workers[w];
        if (pc'.Spawn? || pc'.AnnounceBranch?) && pc'.snap != sys.shared.task {
          TaskStaysSeen(cfg, before, a, pc'.snap);
        }
      }
    }
  }

  lemma SpawnsInput(cfg: Config, before: seq<Action>, a: Action)
    requires a.Act? && a.w in Reach(cfg, before).workers && Reach(cfg, before).workers[a.w].Spawn?
    requires var sys := Reach(cfg, before);
             Step(cfg, sys.shared, a.w, sys.workers[a.w], a.choice).1.AnnounceBranch?
    ensures a.choice.id in Reach(cfg, before + [a]).shared.branches
    ensures WasSpawned(cfg, before + [a], a.choice.id, Reach(cfg, before + [a]).shared.branches[a.choice.id].input)
  {
    hide Reach, Step, BranchInput, IsInput;
    var sys, actions, n := Reach(cfg, before), before + [a], |before|;
    var pc := sys.workers[a.w];
    OneMore(cfg, before, a);
    SpawnInput(cfg, sys.shared, a.w, pc, a.choice);
    SpawnersSaw(cfg, before, a.w);
    assert TaskSeen(cfg, before, pc.snap);
    var t: nat :| t <= |before| && Reach(cfg, before[..t]).shared.task == pc.snap;
    assert actions[..t] == before[..t] && actions[..n] == before;
    var input := Reach(cfg, actions).shared.branches[a.choice.id].input;
    InputExactly(pc.snap, StateOf(cfg, pc.snap).branches.GetOr([])[|pc.ids|], input);
    assert SpawnedBy(cfg, actions, a.choice.id, input, n, t);
  }

  /** In every run, every branch there is was spawned by some action of the run, on the input its definition asks for out of
      a state of the parent that the store had before. */
  lemma {:induction false} EveryBranchInput(cfg: Config, actions: seq<Action>)
    ensures forall id :: id in Reach(cfg, actions).shared.branches ==>
              WasSpawned(cfg, actions, id, Reach(cfg, actions).shared.branches[id].input)
    decreases |actions|
  {
    if actions != [] {
      hide Step, Reach, WasSpawned, MergeData;
      var n := |actions| - 1;
      var before, a := actions[..n], actions[n];
      var sys, s' := Reach(cfg, before), Reach(cfg, actions).shared;
      assert before + [a] == actions;
      OneMore(cfg, before, a);
      EveryBranchInput(cfg, before);
      forall id | id in sys.shared.branches ensures WasSpawned(cfg, actions, id, sys.shared.branches[id].input) {
        SpawnedStays(cfg, before, a, id, sys.shared.branches[id].input);
      }
      if a.Act? && a.w in sys.workers {
        var pc := sys.workers[a.w];
        StepInputs(cfg, sys.shared, a.w, pc, a.choice);
        if pc.Spawn? && Step(cfg, sys.shared, a.w, pc, a.choice).1.AnnounceBranch? { SpawnsInput(cfg, before, a); }
      } else {
        ApplyInputs(cfg, sys, a);
      }
    } else {
      assert Init(cfg).shared.branches == map[];
    }
  }

  // ── the record ──

  /** The branches read from a task's data: the texts of a well-formed list, and none from anything else. */
  lemma RecordedExactly(data: Fields, ids: seq<TaskId>)
    ensures Recorded(data) == ids <==>
              || RecordsTexts(data, ids)
              || (ids == [] && forall other :: !RecordsTexts(data, other))
  {
    hide ItemTexts;
    if "_parallel" in data && data["_parallel"].Obj? && "branch_tasks" in data["_parallel"].fields
       && data["_parallel"].fields["branch_tasks"].Arr?
    {
      var items := data["_parallel"].fields["branch_tasks"].items;
      assert Recorded(data) == ItemTexts(items).GetOr([]);
      forall other: seq<TaskId> ensures RecordsTexts(data, other) <==> ItemTexts(items) == Some(other) {
        TextsExactly(items, other);
      }
      if ItemTexts(items).Some? {
        assert RecordsTexts(data, ItemTexts(items).value);
      }
    } else {
      assert Recorded(data) == [];
    }
  }

  function Texts(ids: seq<TaskId>): (r: seq<Json>)
    ensures |r| == |ids| && forall i :: 0 <= i < |r| ==> r[i] == Str(ids[i])
  {
    seq(|ids|, i requires 0 <= i < |ids| => Str(ids[i]))
  }

  predicate RecordsTexts(data: Fields, ids: seq<TaskId>) {
    && "_parallel" in data && data["_parallel"].Obj? && "branch_tasks" in data["_parallel"].fields
    && data["_parallel"].fields["branch_tasks"] == Arr(Texts(ids))
  }

  lemma {:induction false} TextsExactly(items: seq<Json>, ids: seq<TaskId>)
    ensures ItemTexts(items) == Some(ids) <==> items == Texts(ids)
  {
    if items == [] {
      assert Texts([]) == [];
    } else if items[0].Str? {
      if ids != [] {
        TextsExactly(items[1..], ids[1..]);
        assert Texts(ids)[1..] == Texts(ids[1..]);
        assert items == Texts(ids) <==> items[0] == Str(ids[0]) && items[1..] == Texts(ids[1..]) by {
          assert items == [items[0]] + items[1..] && Texts(ids) == [Texts(ids)[0]] + Texts(ids)[1..];
        }
        assert ids == [ids[0]] + ids[1..];
      }
    } else if ids != [] {
      assert Texts(ids)[0] == Str(ids[0]);
    }
  }

  /** What a fork's record says: which branches, which strategy, since when. Either store reads it back, whatever it held
      before. */
  lemma RecordTells(cfg: Config, s: Shared, w: WorkerId, snap: Task, ids: seq<TaskId>, c: Choice)
    requires AtParallel(cfg, snap) && c.ok
    ensures var data := Step(cfg, s, w, RecordBranches(snap, ids), c).0.task.stateData;
            && RecordsTexts(data, ids)
            && "join_strategy" in data["_parallel"].fields && "spawned_at" in data["_parallel"].fields
            && data["_parallel"].fields["spawned_at"] == Num(c.now)
            && data["_parallel"].fields["join_strategy"]
            == Str(if StateOf(cfg, snap).joinStrategy == Some(FailFast) then "fail_fast" else "all")
  {
    var strategy := StrategyOf(StateOf(cfg, snap));
    var patch := RecordPatch(strategy, ids, c.now);
    assert Step(cfg, s, w, RecordBranches(snap, ids), c).0 == MergeData(cfg, s, patch);
    RecordKeeps(cfg, s, patch, "branch_tasks");
    RecordKeeps(cfg, s, patch, "join_strategy");
    RecordKeeps(cfg, s, patch, "spawned_at");
    assert patch["_parallel"].fields["branch_tasks"] == Arr(Texts(ids));
  }

  /** A value of the patch that is no object arrives as it is. */
  lemma RecordKeeps(cfg: Config, s: Shared, patch: Fields, key: string)
    requires "_parallel" in patch && patch["_parallel"].Obj?
    requires key in patch["_parallel"].fields && !patch["_parallel"].fields[key].Obj?
    ensures var data := MergeData(cfg, s, patch).task.stateData;
            && "_parallel" in data && data["_parallel"].Obj? && key in data["_parallel"].fields
            && data["_parallel"].fields[key] == patch["_parallel"].fields[key]
  {
    var record, before := patch["_parallel"].fields, Existing(s.task.stateData, "_parallel");
    assert Merged(before, Obj(record)).Obj? && key in Merged(before, Obj(record)).fields;
    if before.Obj? {
      assert Merged(Existing(before.fields, key), record[key]) == record[key];
    }
    assert Merged(before, Obj(record)).fields[key] == record[key];
    var data := MergeData(cfg, s, patch).task.stateData;
    assert data["_parallel"].Obj? && data["_parallel"].fields[key] == record[key];
  }

  // ── when time is up ──

  /** The data say when the fork was spawned, and the clock is at least the timeout past that. */
  predicate Due(data: Fields, timeout: Option<nat>, now: int) {
    && timeout.Some? && "_parallel" in data && data["_parallel"].Obj?
    && "spawned_at" in data["_parallel"].fields && data["_parallel"].fields["spawned_at"].Num?
    && data["_parallel"].fields["spawned_at"].n + timeout.value <= now
  }

  /** After the whole scan a worker sweeps exactly when some branch was not finished and the fork's time is up; after one
      that stopped early only then. */
  lemma SweepBegins(cfg: Config, s: Shared, w: WorkerId, snap: Task, ids: seq<TaskId>, k: nat, scan: Scan, c: Choice)
    requires AtParallel(cfg, snap)
    ensures var pc := Step(cfg, s, w, ScanBranches(snap, ids, k, scan), c).1;
            && (k >= |ids| ==>
                  (pc.Sweep? <==> !scan.allCompleted && Due(snap.stateData, StateOf(cfg, snap).timeoutSecs, c.now)))
            && (pc.Sweep? ==> !pc.scan.allCompleted && Due(snap.stateData, StateOf(cfg, snap).timeoutSecs, c.now))
  {
    hide ScanOne;
  }

  /** So a worker that read the parent right after a fork was recorded at time `at` sweeps exactly from `at` plus the
      timeout on. */
  lemma SweepsInTime(cfg: Config, s: Shared, w: WorkerId, snap: Task, ids: seq<TaskId>, record: Choice, t: Shared,
                     v: WorkerId, scan: Scan, c: Choice)
    requires AtParallel(cfg, snap) && record.ok
    requires var read := Step(cfg, s, w, RecordBranches(snap, ids), record).0.task;
             AtParallel(cfg, read) && StateOf(cfg, read).timeoutSecs.Some? && !scan.allCompleted
    ensures var read := Step(cfg, s, w, RecordBranches(snap, ids), record).0.task;
            (Step(cfg, t, v, ScanBranches(read, ids, |ids|, scan), c).1.Sweep?
             <==> record.now + StateOf(cfg, read).timeoutSecs.value <= c.now)
  {
    RecordTells(cfg, s, w, snap, ids, record);
    SweepBegins(cfg, t, v, Step(cfg, s, w, RecordBranches(snap, ids), record).0.task, ids, |ids|, scan, c);
    hide Step;
  }

  // ── what a scan makes of one branch ──

  /** A completed branch counts with its output, a failed one with its error, and any other, or none, as unfinished. Under
      fail-fast a failed one ends the scan. A recorded text that is no identifier ends the check with an error. */
  lemma ScanReads(cfg: Config, s: Shared, w: WorkerId, snap: Task, ids: seq<TaskId>, k: nat, scan: Scan, c: Choice)
    requires AtParallel(cfg, snap) && k < |ids|
    ensures var id, pc := ids[k], Step(cfg, s, w, ScanBranches(snap, ids, k, scan), c).1;
            if !cfg.isUuid(id) then pc == Done(Err(BadBranchId))
            else if !c.ok then pc == Done(Err(StoreFault))
            else if id in s.branches && s.branches[id].status == Completed then
              var output := if s.branches[id].output.Some? then s.branches[id].output.value
                            else Obj(map["_no_output" := Bool(true)]);
              pc == ScanBranches(snap, ids, k + 1, Scan(scan.allCompleted, scan.anyFailed, scan.results[id := Finished(output)]))
            else if id in s.branches && s.branches[id].status.Failed? then
              var results := scan.results[id := BranchError(s.branches[id].status.error)];
              if StateOf(cfg, snap).joinStrategy == Some(FailFast) then
                pc == Sweep(snap, ids, 0, Scan(scan.allCompleted, true, results)) || pc == CheckVersion(snap, results, true)
              else pc == ScanBranches(snap, ids, k + 1, Scan(scan.allCompleted, true, results))
            else pc == ScanBranches(snap, ids, k + 1, Scan(false, scan.anyFailed, scan.results))
  {
    hide TimedOut;
  }

  /** A scan, or a sweep, that has come to the end decides: under fail-fast any failure joins at once as failed, otherwise
      the join waits until everything is finished and nothing failed. A sweep counts as having finished everything. */
  lemma JoinTurns(cfg: Config, s: Shared, w: WorkerId, snap: Task, ids: seq<TaskId>, scan: Scan, c: Choice)
    requires AtParallel(cfg, snap)
    ensures var swept := Step(cfg, s, w, Sweep(snap, ids, |ids|, scan), c).1;
            var scanned := Step(cfg, s, w, ScanBranches(snap, ids, |ids|, scan), c).1;
            var failFast := StateOf(cfg, snap).joinStrategy == Some(FailFast);
            && (swept == CheckVersion(snap, scan.results, true) <==> scan.anyFailed && failFast)
            && (swept == CheckVersion(snap, scan.results, false) <==> !scan.anyFailed)
            && (swept == Done(Ok(())) <==> scan.anyFailed && !failFast)
            && (!scanned.Sweep? ==>
                  && (scanned == CheckVersion(snap, scan.results, true) <==> scan.anyFailed && failFast)
                  && (scanned == CheckVersion(snap, scan.results, false) <==> scan.allCompleted && !scan.anyFailed)
                  && (scanned == Done(Ok(())) <==> if scan.anyFailed then !failFast else !scan.allCompleted))
  {
    hide TimedOut;
  }

  /** A sweep that gives a branch up notes the timeout as its error; it stops with an error at a recorded text that is no
      identifier, and at a branch that is not there. */
  lemma SweepNotes(cfg: Config, s: Shared, w: WorkerId, snap: Task, ids: seq<TaskId>, k: nat, scan: Scan, c: Choice)
    requires AtParallel(cfg, snap) && k < |ids| && ids[k] !in scan.results
    ensures var pc := Step(cfg, s, w, Sweep(snap, ids, k, scan), c).1;
            if !cfg.isUuid(ids[k]) then pc == Done(Err(BadBranchId))
            else if !c.ok then pc == Done(Err(StoreFault))
            else if ids[k] !in s.branches then pc == Done(Err(MissingTask))
            else
              pc == Sweep(snap, ids, k + 1,
                          Scan(scan.allCompleted, true, scan.results[ids[k] := BranchError("parallel branch timed out")]))
  {
  }

  /** The join goes on only from the version that was read. */
  lemma JoinChecks(cfg: Config, s: Shared, w: WorkerId, snap: Task, results: Results, failed: bool, c: Choice)
    ensures var (s', pc) := Step(cfg, s, w, CheckVersion(snap, results, failed), c);
            && s' == s
            && (pc == MergeResults(snap, results, failed) <==> c.ok && s.task.version == snap.version)
            && (pc == Done(Ok(())) <==> c.ok && s.task.version != snap.version)
            && (pc == Done(Err(StoreFault)) <==> !c.ok)
  {
  }
}
