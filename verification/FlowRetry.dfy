/** Whether the flow state follows the committed path: retries are what makes it fall behind. */
module FlowRetry {
  import opened Wrappers
  import opened JsonValues
  import opened Condition
  import opened Flow
  import opened FlowEngine
  import opened FlowSafety
  import opened FlowTheorems
  import opened FlowHistory

  /** The committed transitions as pairs of states. */
  function PathOf(log: seq<Committed>): (r: seq<(StateName, StateName)>)
    ensures |r| == |log|
  {
    seq(|log|, i requires 0 <= i < |log| => (log[i].move.snap.currentState, log[i].move.target))
  }

  /** The flow state's history is the list of committed transitions. */
  predicate Follows(s: Shared) {
    s.flow.history == PathOf(s.log)
  }

  /** The definition lets no state be retried. */
  predicate NoRetry(def: FlowDef) {
    def.onError.None? || def.onError.value.retryStates == [] || def.onError.value.maxRetries == 0
  }

  // ── a flow state says where its own history ends ──

  function EndOf(cfg: Config, flow: FlowState): StateName {
    if flow.history == [] then cfg.def.initialState else flow.history[|flow.history| - 1].1
  }

  predicate Sound(cfg: Config, flow: FlowState) {
    flow.currentState == EndOf(cfg, flow)
  }

  predicate SoundPc(cfg: Config, pc: Pc) {
    match pc
    case Commit(m) => m.cause.Matched? ==> Sound(cfg, m.cause.flow)
    case Announce(m) => m.cause.Matched? ==> Sound(cfg, m.cause.flow)
    case OnEnter(m, _) => m.cause.Matched? ==> Sound(cfg, m.cause.flow)
    case SaveRetry(_, flow) => Sound(cfg, flow)
    case _ => true
  }

  ghost predicate AllSound(cfg: Config, sys: Sys) {
    Sound(cfg, sys.shared.flow) && forall w :: w in sys.workers ==> SoundPc(cfg, sys.workers[w])
  }

  lemma StepSound(cfg: Config, s: Shared, w: WorkerId, pc: Pc, c: Choice)
    requires Sound(cfg, s.flow) && SoundPc(cfg, pc)
    ensures var (s', pc') := Step(cfg, s, w, pc, c); Sound(cfg, s'.flow) && SoundPc(cfg, pc')
  {
    hide Recorded, Decide, MergeData, StatusFor, StepParallel, StepOnEnter;
    ParallelSound(cfg, s, pc, c);
    if pc.OnEnter? { EnterSound(cfg, s, pc.move, pc.next, c); }
  }

  lemma EnterSound(cfg: Config, s: Shared, m: Move, k: nat, c: Choice)
    requires SoundPc(cfg, OnEnter(m, k))
    ensures var (s', pc') := StepOnEnter(cfg, s, m, k, c); s'.flow == s.flow && SoundPc(cfg, pc')
  {
  }

  lemma ParallelSound(cfg: Config, s: Shared, pc: Pc, c: Choice)
    requires SoundPc(cfg, pc)
    ensures var (s', pc') := StepParallel(cfg, s, pc, c); s'.flow == s.flow && SoundPc(cfg, pc')
  {
    hide Sound, StoreMerge, ScanOne, SweepScan, TimedOut, BranchInput, RecordPatch, ResultsPatch;
  }

  lemma MergeFlow(cfg: Config, s: Shared, patch: Fields)
    ensures MergeData(cfg, s, patch).flow == s.flow && MergeData(cfg, s, patch).log == s.log
  {
  }

  lemma {:induction false} RunSound(cfg: Config, actions: seq<Action>)
    ensures AllSound(cfg, Reach(cfg, actions))
    decreases |actions|
  {
    if actions != [] {
      hide Step, Sound, MergeData;
      var n := |actions| - 1;
      RunSound(cfg, actions[..n]);
      var sys, a := Reach(cfg, actions[..n]), actions[n];
      if a.Act? && a.w in sys.workers { StepSound(cfg, sys.shared, a.w, sys.workers[a.w], a.choice); }
      if a.AgentMerge? { MergeFlow(cfg, sys.shared, a.patch); }
      if a.Approve? { ApprovalSound(cfg, sys.shared.flow, a.approval); }
    } else {
      assert Sound(cfg, Init(cfg).shared.flow);
    }
  }

  lemma ApprovalSound(cfg: Config, flow: FlowState, approval: Option<Approval>)
    ensures Sound(cfg, flow.(pendingApproval := approval)) == Sound(cfg, flow)
  {
  }

  /** Where the history follows the path, the flow state names the task's current state. */
  lemma FollowsState(cfg: Config, actions: seq<Action>)
    requires Registered(cfg) && Follows(Reach(cfg, actions).shared)
    ensures Reach(cfg, actions).shared.flow.currentState == Reach(cfg, actions).shared.task.currentState
  {
    Reachable(cfg, actions);
    RunSound(cfg, actions);
  }

  // ── only a saved retry can make it fall behind ──

  /** The action saves a retry. */
  predicate Saves(sys: Sys, a: Action) {
    a.Act? && a.w in sys.workers && sys.workers[a.w].SaveRetry? && a.choice.ok
  }

  lemma StepFollows(cfg: Config, s: Shared, w: WorkerId, pc: Pc, c: Choice)
    requires !pc.SaveRetry? || !c.ok
    ensures Follows(Step(cfg, s, w, pc, c).0) <==> Follows(s)
  {
    hide Recorded, Decide, StoreMerge, StatusFor, RecordPatch, ResultsPatch, BranchInput, AfterRead, AfterFailure,
         AfterScan, AfterSweep, PathOf;
    if pc.Commit? {
      PathPush(s.log, Committed(w, pc.move));
      HistoryPush(s.flow.history, PathOf(s.log), (pc.move.snap.currentState, pc.move.target));
    }
  }

  lemma PathPush(log: seq<Committed>, c: Committed)
    ensures PathOf(log + [c]) == PathOf(log) + [(c.move.snap.currentState, c.move.target)]
  {
  }

  lemma HistoryPush<T>(a: seq<T>, b: seq<T>, x: T)
    ensures a + [x] == b + [x] <==> a == b
  {
    assert (a + [x])[..|a|] == a && (b + [x])[..|b|] == b;
    if a + [x] == b + [x] {
      assert |a + [x]| == |b + [x]|;
    }
  }

  lemma ApplyFollows(cfg: Config, sys: Sys, a: Action)
    requires !Saves(sys, a)
    ensures Follows(Apply(cfg, sys, a).shared) <==> Follows(sys.shared)
  {
    hide Step, MergeData, PathOf;
    if a.Act? && a.w in sys.workers { StepFollows(cfg, sys.shared, a.w, sys.workers[a.w], a.choice); }
    if a.AgentMerge? { MergeFlow(cfg, sys.shared, a.patch); }
  }

  /** The last action of the run that saved a retry. */
  ghost function LastSave(cfg: Config, actions: seq<Action>): (r: Option<nat>)
    ensures r.Some? ==> r.value < |actions| && Saves(Reach(cfg, actions[..r.value]), actions[r.value])
    decreases |actions|
  {
    if actions == [] then None
    else
      var n := |actions| - 1;
      if Saves(Reach(cfg, actions[..n]), actions[n]) then Some(n)
      else
        var r := LastSave(cfg, actions[..n]);
        assert r.Some? ==> actions[..n][..r.value] == actions[..r.value];
        r
  }

  ghost predicate LastSaveFollows(cfg: Config, actions: seq<Action>) {
    var r := LastSave(cfg, actions);
    r.Some? ==> Follows(Reach(cfg, actions[..r.value + 1]).shared)
  }

  /** In every run the flow state follows the path exactly when no retry was saved, or it did right after the last one
      that was. */
  lemma {:induction false} LastSaveDecides(cfg: Config, actions: seq<Action>)
    ensures Follows(Reach(cfg, actions).shared) <==> LastSaveFollows(cfg, actions)
    decreases |actions|
  {
    if actions == [] {
      assert PathOf([]) == [];
    } else {
      hide Follows, Saves, Apply;
      var n := |actions| - 1;
      if Saves(Reach(cfg, actions[..n]), actions[n]) {
        assert actions[..n + 1] == actions;
      } else {
        LastSaveDecides(cfg, actions[..n]);
        ApplyFollows(cfg, Reach(cfg, actions[..n]), actions[n]);
        var r := LastSave(cfg, actions[..n]);
        assert r.Some? ==> actions[..n][..r.value + 1] == actions[..r.value + 1];
      }
    }
  }

  // ── without retries it never does ──

  ghost predicate NoSaving(sys: Sys) {
    forall w :: w in sys.workers ==> !sys.workers[w].SaveRetry?
  }

  lemma StepNoSaving(cfg: Config, s: Shared, w: WorkerId, pc: Pc, c: Choice)
    requires NoRetry(cfg.def) && !pc.SaveRetry?
    ensures !Step(cfg, s, w, pc, c).1.SaveRetry?
  {
    hide Recorded, Decide, MergeData, StatusFor, RecordPatch, ResultsPatch, BranchInput, CommitMove, ScanOne, SweepScan,
         TimedOut;
  }

  lemma {:induction false} RunNoSaving(cfg: Config, actions: seq<Action>)
    requires NoRetry(cfg.def)
    ensures NoSaving(Reach(cfg, actions)) && LastSave(cfg, actions).None?
    decreases |actions|
  {
    if actions != [] {
      hide Step, MergeData;
      var n := |actions| - 1;
      RunNoSaving(cfg, actions[..n]);
      var sys, a := Reach(cfg, actions[..n]), actions[n];
      if a.Act? && a.w in sys.workers { StepNoSaving(cfg, sys.shared, a.w, sys.workers[a.w], a.choice); }
    }
  }

  /** When the definition lets nothing be retried, the flow state follows the committed path in every interleaving. */
  lemma FlowStateFollows(cfg: Config, actions: seq<Action>)
    requires Registered(cfg) && NoRetry(cfg.def)
    ensures var s := Reach(cfg, actions).shared;
            Follows(s) && s.flow.currentState == s.task.currentState
  {
    RunNoSaving(cfg, actions);
    LastSaveDecides(cfg, actions);
    FollowsState(cfg, actions);
  }

  // ── exactly when a retry makes it fall behind ──

  lemma PathLength(a: seq<Committed>, b: seq<Committed>)
    requires a <= b
    ensures PathOf(a) == PathOf(b) <==> a == b
  {
    if PathOf(a) == PathOf(b) {
      assert |a| == |b|;
      assert b[..|a|] == b;
    }
  }

  lemma {:induction false} NoSaveEarlier(cfg: Config, actions: seq<Action>, f: nat)
    requires LastSave(cfg, actions).None? && f <= |actions|
    ensures LastSave(cfg, actions[..f]).None?
    decreases |actions|
  {
    if f < |actions| {
      var n := |actions| - 1;
      NoSaveEarlier(cfg, actions[..n], f);
      assert actions[..n][..f] == actions[..f];
    } else {
      assert actions[..f] == actions;
    }
  }

  lemma {:induction false} LogGrows(cfg: Config, actions: seq<Action>, more: seq<Action>)
    ensures Reach(cfg, actions).shared.log <= Reach(cfg, actions + more).shared.log
    decreases |more|
  {
    hide Reach, Apply;
    if more == [] {
      assert actions + more == actions;
    } else {
      var n := |more| - 1;
      LogGrows(cfg, actions, more[..n]);
      OneMore(cfg, actions + more[..n], more[n]);
      assert actions + more[..n] + [more[n]] == actions + more;
      ApplyLog(cfg, Reach(cfg, actions + more[..n]), more[n]);
    }
  }

  lemma ApplyLog(cfg: Config, sys: Sys, a: Action)
    ensures sys.shared.log <= Apply(cfg, sys, a).shared.log
  {
    hide Step, MergeData;
    if a.Act? && a.w in sys.workers { StepLog(cfg, sys.shared, a.w, sys.workers[a.w], a.choice); }
    if a.AgentMerge? { MergeFlow(cfg, sys.shared, a.patch); }
  }

  /** No flow state has more history than there are commits. */
  lemma {:induction false} ShortHistory(cfg: Config, actions: seq<Action>)
    ensures |Reach(cfg, actions).shared.flow.history| <= |Reach(cfg, actions).shared.log|
    decreases |actions|
  {
    if actions != [] {
      hide Step, MergeData, Reach;
      var n := |actions| - 1;
      ShortHistory(cfg, actions[..n]);
      var sys, a := Reach(cfg, actions[..n]), actions[n];
      assert actions[..n] + [a] == actions;
      OneMore(cfg, actions[..n], a);
      if Saves(sys, a) {
        var f := SavedFrom(cfg, actions[..n], a.w);
        assert actions[..n][..f] + actions[..n][f..] == actions[..n];
        LogGrows(cfg, actions[..n][..f], actions[..n][f..]);
        ShortHistory(cfg, actions[..n][..f]);
        SaveWrites(cfg, sys.shared, a.w, sys.workers[a.w], a.choice);
      } else {
        ApplyShort(cfg, sys, a);
      }
    } else {
      assert Init(cfg).shared.flow.history == [];
    }
  }

  lemma SaveWrites(cfg: Config, s: Shared, w: WorkerId, pc: Pc, c: Choice)
    requires pc.SaveRetry? && c.ok
    ensures Step(cfg, s, w, pc, c).0 == s.(flow := pc.flow)
  {
  }

  lemma ApplyShort(cfg: Config, sys: Sys, a: Action)
    requires !Saves(sys, a) && |sys.shared.flow.history| <= |sys.shared.log|
    ensures |Apply(cfg, sys, a).shared.flow.history| <= |Apply(cfg, sys, a).shared.log|
  {
    hide Step, MergeData;
    if a.Act? && a.w in sys.workers { StepShort(cfg, sys.shared, a.w, sys.workers[a.w], a.choice); }
    if a.AgentMerge? { MergeFlow(cfg, sys.shared, a.patch); }
  }

  lemma StepShort(cfg: Config, s: Shared, w: WorkerId, pc: Pc, c: Choice)
    requires (!pc.SaveRetry? || !c.ok) && |s.flow.history| <= |s.log|
    ensures var s' := Step(cfg, s, w, pc, c).0; |s'.flow.history| <= |s'.log|
  {
    hide Recorded, Decide, StoreMerge, StatusFor, RecordPatch, ResultsPatch, BranchInput, AfterRead, AfterFailure,
         AfterScan, AfterSweep, PathOf;
  }

  /** The worker's flow state is one that was in the store at moment `f`, with the count of retries raised. */
  ghost predicate ReadWas(cfg: Config, actions: seq<Action>, w: WorkerId, f: nat) {
    var sys := Reach(cfg, actions);
    && f <= |actions| && w in sys.workers && sys.workers[w].SaveRetry?
    && var flow := Reach(cfg, actions[..f]).shared.flow;
       sys.workers[w].flow == flow.(retryCount := flow.retryCount + 1)
  }

  /** A worker about to save a retry holds a flow state the store once had. */
  lemma SavedFrom(cfg: Config, actions: seq<Action>, w: WorkerId) returns (f: nat)
    requires w in Reach(cfg, actions).workers && Reach(cfg, actions).workers[w].SaveRetry?
    ensures ReadWas(cfg, actions, w, f)
  {
    hide Reach, Saves;
    var sys := Reach(cfg, actions);
    var saved := sys.workers[w].flow;
    EverythingSeen(cfg, actions);
    assert PcSeen(cfg, actions, sys.workers[w]);
    var was := saved.(retryCount := saved.retryCount - 1);
    var t: nat, at: nat :| t <= at <= |actions|
      && Reach(cfg, actions[..t]).shared.task == sys.workers[w].snap && Reach(cfg, actions[..at]).shared.flow == was;
    f := at;
  }

  /** Nothing was committed between the two moments. */
  ghost predicate NoCommitSince(cfg: Config, actions: seq<Action>, f: nat) {
    f <= |actions| && Reach(cfg, actions[..f]).shared.log == Reach(cfg, actions).shared.log
  }

  /** Every retry that is saved puts the flow state back to what its worker had read: it follows the path afterwards
      exactly when it did at that read and nothing was committed since. This holds of the read, and of any other moment
      at which the store had that flow state. */
  lemma EverySaveExactly(cfg: Config, actions: seq<Action>, w: WorkerId, c: Choice, read: nat)
    requires ReadWas(cfg, actions, w, read) && c.ok
    ensures Follows(Reach(cfg, actions + [Act(w, c)]).shared)
        <==> Follows(Reach(cfg, actions[..read]).shared) && NoCommitSince(cfg, actions, read)
  {
    hide Reach, Step, PathOf;
    var sys, before := Reach(cfg, actions), Reach(cfg, actions[..read]).shared;
    assert actions[..read] + actions[read..] == actions;
    LogGrows(cfg, actions[..read], actions[read..]);
    ShortHistory(cfg, actions[..read]);
    OneMoreAct(cfg, actions, sys, w, c);
    SaveWrites(cfg, sys.shared, w, sys.workers[w], c);
    PathLength(before.log, sys.shared.log);
    if before.flow.history == PathOf(sys.shared.log) {
      assert sys.shared.log[..|before.log|] == before.log;
      assert |before.log| == |sys.shared.log|;
    }
  }

  /** At the first retry that is saved the condition is the second half alone. */
  lemma FirstSaveExactly(cfg: Config, actions: seq<Action>, w: WorkerId, c: Choice, read: nat)
    requires LastSave(cfg, actions).None? && ReadWas(cfg, actions, w, read) && c.ok
    ensures Follows(Reach(cfg, actions + [Act(w, c)]).shared) <==> NoCommitSince(cfg, actions, read)
  {
    EverySaveExactly(cfg, actions, w, c, read);
    NoSaveEarlier(cfg, actions, read);
    LastSaveDecides(cfg, actions[..read]);
  }

  /** The retry saved by action `n` had been read at moment `f`, and nothing was committed from there to the saving. */
  ghost predicate SavedUnspoilt(cfg: Config, actions: seq<Action>, n: nat, f: nat) {
    && f <= n < |actions| && actions[n].Act?
    && ReadWas(cfg, actions[..n], actions[n].w, f) && NoCommitSince(cfg, actions[..n], f)
  }

  /** No retry was saved, or nothing was committed between the read behind the last saved one and its saving, and so on
      back from that read. */
  ghost predicate NothingLost(cfg: Config, actions: seq<Action>)
    decreases |actions|
  {
    var r := LastSave(cfg, actions);
    r.Some? ==> exists f: nat :: SavedUnspoilt(cfg, actions, r.value, f) && NothingLost(cfg, actions[..f])
  }

  /** The flow state follows the committed path in exactly the runs in which no saved retry lost a commit. */
  lemma {:induction false} FollowsExactly(cfg: Config, actions: seq<Action>)
    ensures Follows(Reach(cfg, actions).shared) <==> NothingLost(cfg, actions)
    decreases |actions|
  {
    hide Reach, Follows;
    LastSaveDecides(cfg, actions);
    var r := LastSave(cfg, actions);
    if r.Some? {
      var n := r.value;
      var before, a := actions[..n], actions[n];
      assert before + [a] == actions[..n + 1];
      var read := SavedFrom(cfg, before, a.w);
      EverySaveExactly(cfg, before, a.w, a.choice, read);
      assert before[..read] == actions[..read];
      FollowsExactly(cfg, actions[..read]);
      if Follows(Reach(cfg, actions).shared) {
        assert SavedUnspoilt(cfg, actions, n, read);
      }
      if NothingLost(cfg, actions) {
        var f: nat :| SavedUnspoilt(cfg, actions, n, f) && NothingLost(cfg, actions[..f]);
        assert before[..f] == actions[..f];
        FollowsExactly(cfg, actions[..f]);
        EverySaveExactly(cfg, before, a.w, a.choice, f);
      }
    }
  }

  // ── wherever a retry can happen, it can fall behind ──

  /** A worker that reads the task now would take transition `k`, and a failure of it would be retried. */
  ghost predicate Retriable(cfg: Config, s: Shared, k: nat, now: int) {
    && Ordinary(cfg, s.task)
    && cfg.def.onError.Some? && s.task.currentState in cfg.def.onError.value.retryStates
    && s.flow.retryCount < cfg.def.onError.value.maxRetries
    && Decide(StateOf(cfg, s.task).transitions, 0, FactsOf(cfg, s.task, s.flow, now)) == Take(k)
  }

  function RetryMove(cfg: Config, s: Shared, k: nat, now: int): Move
    requires Ordinary(cfg, s.task) && k < |StateOf(cfg, s.task).transitions|
  {
    Move(s.task, StateOf(cfg, s.task).transitions[k].to, Matched(0, s.flow, k, now))
  }

  /** A worker starts, reads the task and the flow state, and is about to commit. */
  lemma ReadsUp(cfg: Config, actions: seq<Action>, w: WorkerId, k: nat, now: int) returns (later: seq<Action>)
    requires CanLaunch(Reach(cfg, actions), w) && Retriable(cfg, Reach(cfg, actions).shared, k, now)
    ensures actions <= later
    ensures var sys := Reach(cfg, actions);
            Reach(cfg, later) == Sys(sys.shared, sys.workers[w := Commit(RetryMove(cfg, sys.shared, k, now))])
    ensures forall i :: |actions| <= i < |later| && later[i].Act? ==> later[i].choice.ok
  {
    hide Reach;
    var sys, ok := Reach(cfg, actions), Choice(true, now, "");
    var a1 := actions + [Launch(w)];
    OneMoreLaunch(cfg, actions, sys, w);
    var sys1 := Sys(sys.shared, sys.workers[w := ReadTask(0)]);
    OneMoreAct(cfg, a1, sys1, w, ok);
    var sys2 := Sys(sys.shared, sys.workers[w := ReadFlow(0, sys.shared.task)]);
    assert sys1.workers[w := ReadFlow(0, sys.shared.task)] == sys2.workers;
    OneMoreAct(cfg, a1 + [Act(w, ok)], sys2, w, ok);
    later := a1 + [Act(w, ok)] + [Act(w, ok)];
  }

  /** From any such moment of any run: commit, fail to publish, save the retry. The task has moved and the flow state is
      what it was. */
  lemma PublishFailureReverts(cfg: Config, actions: seq<Action>, w: WorkerId, k: nat, now: int)
    returns (later: seq<Action>)
    requires CanLaunch(Reach(cfg, actions), w) && Retriable(cfg, Reach(cfg, actions).shared, k, now)
    requires Follows(Reach(cfg, actions).shared)
    ensures actions <= later
    ensures var s, s' := Reach(cfg, actions).shared, Reach(cfg, later).shared;
            && s'.task.currentState == StateOf(cfg, s.task).transitions[k].to && |s'.log| == |s.log| + 1
            && s'.flow == s.flow.(retryCount := s.flow.retryCount + 1)
            && !Follows(s')
  {
    hide Reach, PathOf, StatusFor;
    var sys, ok, fail := Reach(cfg, actions), Choice(true, now, ""), Choice(false, now, "");
    var m := RetryMove(cfg, sys.shared, k, now);
    var b0 := ReadsUp(cfg, actions, w, k, now);
    var moved := CommitMove(cfg, sys.shared, w, m);
    OneMoreAct(cfg, b0, Sys(sys.shared, sys.workers[w := Commit(m)]), w, ok);
    assert sys.workers[w := Commit(m)][w := Announce(m)] == sys.workers[w := Announce(m)];
    var b1 := b0 + [Act(w, ok)];
    OneMoreAct(cfg, b1, Sys(moved, sys.workers[w := Announce(m)]), w, fail);
    var saving := SaveRetry(sys.shared.task, sys.shared.flow.(retryCount := sys.shared.flow.retryCount + 1));
    assert sys.workers[w := Announce(m)][w := saving] == sys.workers[w := saving];
    var b2 := b1 + [Act(w, fail)];
    OneMoreAct(cfg, b2, Sys(moved, sys.workers[w := saving]), w, ok);
    later := b2 + [Act(w, ok)];
  }

  /** From any such moment too, and with every operation succeeding: two workers read, one commits, the other meets the
      conflict and saves its retry over the first one's history entry. */
  lemma ConflictReverts(cfg: Config, actions: seq<Action>, v: WorkerId, w: WorkerId, k: nat, now: int)
    returns (later: seq<Action>)
    requires v != w && CanLaunch(Reach(cfg, actions), v) && CanLaunch(Reach(cfg, actions), w)
    requires Retriable(cfg, Reach(cfg, actions).shared, k, now) && Follows(Reach(cfg, actions).shared)
    ensures actions <= later
    ensures var s, s' := Reach(cfg, actions).shared, Reach(cfg, later).shared;
            && s'.task.currentState == StateOf(cfg, s.task).transitions[k].to && |s'.log| == |s.log| + 1
            && s'.flow == s.flow.(retryCount := s.flow.retryCount + 1)
            && !Follows(s')
    ensures forall i :: |actions| <= i < |later| && later[i].Act? ==> later[i].choice.ok
  {
    hide Reach, PathOf, StatusFor;
    var sys, ok := Reach(cfg, actions), Choice(true, now, "");
    var m := RetryMove(cfg, sys.shared, k, now);
    var b0 := ReadsUp(cfg, actions, v, k, now);
    var b1 := ReadsUp(cfg, b0, w, k, now);
    var both := sys.workers[v := Commit(m)][w := Commit(m)];
    var moved := CommitMove(cfg, sys.shared, w, m);
    OneMoreAct(cfg, b1, Sys(sys.shared, both), w, ok);
    var b2 := b1 + [Act(w, ok)];
    OneMoreAct(cfg, b2, Sys(moved, both[w := Announce(m)]), v, ok);
    var saving := SaveRetry(sys.shared.task, sys.shared.flow.(retryCount := sys.shared.flow.retryCount + 1));
    var b3 := b2 + [Act(v, ok)];
    OneMoreAct(cfg, b3, Sys(moved, both[w := Announce(m)][v := saving]), v, ok);
    later := b3 + [Act(v, ok)];
  }

  // ── both causes from the creation of a task ──

  function RetryFlow(): FlowDef {
    FlowDef("retry", "begin", map[
      "begin" := StateDef(Start, None, None, [TransitionDef("end", None, Some(true))], None, None, None),
      "end" := StateDef(End, None, None, [], None, None, None)],
      Some(ErrorPolicy(1, ["begin"], "end")))
  }

  function RetryConfig(): Config {
    Config(RetryFlow(), map[], Postgres, true, _ => true)
  }

  /** Two runs of one small flow, each from the creation of the task: in both it is at its End state while the flow
      state still names the start with an empty history. */
  lemma FlowStateFallsBehind() returns (publish: seq<Action>, conflict: seq<Action>)
    ensures Registered(RetryConfig())
    ensures forall run :: run in [publish, conflict] ==>
              var s := Reach(RetryConfig(), run).shared;
              s.task.currentState == "end" && s.flow.currentState == "begin" && s.flow.history == [] && |s.log| == 1
    ensures forall i :: 0 <= i < |conflict| && conflict[i].Act? ==> conflict[i].choice.ok
  {
    var cfg := RetryConfig();
    assert RetryFlow().OfType(Start) == {"begin"};
    assert "end" in RetryFlow().OfType(End);
    assert Reach(cfg, []) == Init(cfg);
    var s := Init(cfg).shared;
    var ts := StateOf(cfg, s.task).transitions;
    assert Fires(ts[0], FactsOf(cfg, s.task, s.flow, 0)) == Ok(true);
    assert Retriable(cfg, s, 0, 0);
    assert Follows(s);
    hide Reach, Retriable, Registered, Follows;
    publish := PublishFailureReverts(cfg, [], 0, 0, 0);
    conflict := ConflictReverts(cfg, [], 0, 1, 0, 0);
  }
}
