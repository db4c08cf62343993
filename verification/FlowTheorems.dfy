/** Safety of whole runs: whatever the interleaving, from creating the task on. */
module FlowTheorems {
  import opened Wrappers
  import opened JsonValues
  import opened Condition
  import opened Flow
  import opened FlowEngine
  import opened FlowSafety

  function Reach(cfg: Config, actions: seq<Action>): Sys {
    Run(cfg, Init(cfg), actions)
  }

  lemma OneMore(cfg: Config, before: seq<Action>, a: Action)
    ensures Reach(cfg, before + [a]) == Apply(cfg, Reach(cfg, before), a)
  {
    assert (before + [a])[..|before|] == before;
  }

  /** One more step of a worker, or the start of one, at the end of a run. */
  lemma OneMoreAct(cfg: Config, before: seq<Action>, sys: Sys, w: WorkerId, c: Choice)
    requires Reach(cfg, before) == sys && w in sys.workers
    ensures var (s', pc') := Step(cfg, sys.shared, w, sys.workers[w], c);
            Reach(cfg, before + [Act(w, c)]) == Sys(s', sys.workers[w := pc'])
  {
    hide Step, Reach;
    OneMore(cfg, before, Act(w, c));
  }

  lemma OneMoreLaunch(cfg: Config, before: seq<Action>, sys: Sys, w: WorkerId)
    requires Reach(cfg, before) == sys && CanLaunch(sys, w)
    ensures Reach(cfg, before + [Launch(w)]) == Sys(sys.shared, sys.workers[w := ReadTask(0)])
  {
    hide Reach;
    OneMore(cfg, before, Launch(w));
  }

  lemma Reachable(cfg: Config, actions: seq<Action>)
    requires Registered(cfg)
    ensures Inv(cfg, Reach(cfg, actions))
  {
    InitOk(cfg);
    RunKeeps(cfg, Init(cfg), actions);
  }

  /** What was reached stays in the log of every longer run. */
  lemma ReachGrows(cfg: Config, actions: seq<Action>, more: seq<Action>)
    requires Registered(cfg)
    ensures Grows(Reach(cfg, actions).shared, Reach(cfg, actions + more).shared)
  {
    Reachable(cfg, actions);
    RunAppend(cfg, Init(cfg), actions, more);
    RunKeeps(cfg, Reach(cfg, actions), more);
  }

  // ── the committed transitions form one path ──

  /** Consecutive commits meet end to end, from the initial to the current state. */
  ghost predicate UnbrokenPath(cfg: Config, s: Shared) {
    && (s.log == [] ==> s.task.currentState == cfg.def.initialState)
    && (s.log != [] ==> s.log[0].move.snap.currentState == cfg.def.initialState)
    && (s.log != [] ==> s.task.currentState == s.log[|s.log| - 1].move.target)
    && (forall i :: 0 < i < |s.log| ==> s.log[i].move.snap.currentState == s.log[i - 1].move.target)
  }

  /** No two commits were made by workers that had read the same version. */
  ghost predicate OneCommitPerVersion(s: Shared) {
    forall i, j :: 0 <= i < j < |s.log| ==> s.log[i].move.snap.version != s.log[j].move.snap.version
  }

  /** The committed transitions are one unbroken path from the initial to the current state, one per version, and
      of all the workers that read the same version at most one commits. */
  lemma CommittedPath(cfg: Config, actions: seq<Action>)
    requires Registered(cfg)
    ensures var s := Reach(cfg, actions).shared;
            |s.log| == s.task.version && UnbrokenPath(cfg, s) && OneCommitPerVersion(s)
  {
    Reachable(cfg, actions);
    var s := Reach(cfg, actions).shared;
    forall i | 0 <= i < |s.log|
      ensures s.log[i].move.snap.version == i && s.log[i].move.snap.currentState == StateAt(cfg, s.log, i)
    {
      assert CommitOk(cfg, s.log, i);
    }
  }

  // ── every step is justified ──

  /** A task leaves an ordinary state through the first listed transition that fired on what the worker read, by
      force, or through the error policy's fallback after the store lost a commit. A Gate is never left
      automatically. */
  lemma EveryStepJustified(cfg: Config, actions: seq<Action>, i: nat)
    requires Registered(cfg) && i < |Reach(cfg, actions).shared.log|
    ensures var m := Reach(cfg, actions).shared.log[i].move;
            && (m.cause.Matched? ==>
                  && Ordinary(cfg, m.snap)
                  && FirstFiring(StateOf(cfg, m.snap).transitions, m.cause.index,
                                 Facts(m.snap.stateData, m.cause.flow.pendingApproval, m.cause.now, cfg.tools))
                  && m.target == StateOf(cfg, m.snap).transitions[m.cause.index].to)
            && (m.cause.Fallback? ==>
                  && !cfg.reliable && m.cause.lost && Ordinary(cfg, m.snap)
                  && cfg.def.onError.Some? && m.target == cfg.def.onError.value.fallback
                  && m.cause.flow.retryCount >= cfg.def.onError.value.maxRetries)
            && (m.cause.Joined? ==> AtParallel(cfg, m.snap))
            && (cfg.def.HasType(m.snap.currentState, Gate) && m.cause.Matched? ==>
                  var t := StateOf(cfg, m.snap).transitions[m.cause.index];
                  t.condition.Some? &&
                  Evaluate(t.condition.value,
                           Facts(m.snap.stateData, m.cause.flow.pendingApproval, m.cause.now, cfg.tools)) == Ok(true))
  {
    Reachable(cfg, actions);
    var s := Reach(cfg, actions).shared;
    assert CommitOk(cfg, s.log, i);
    var m := s.log[i].move;
    if cfg.def.HasType(m.snap.currentState, Gate) {
      assert StateOk(cfg.def, m.snap.currentState);
    }
  }

  // ── runs without forced moves ──

  ghost predicate NoForce(actions: seq<Action>) {
    forall i :: 0 <= i < |actions| ==> !actions[i].LaunchForced?
  }

  predicate UnforcedPc(pc: Pc) {
    match pc
    case ReadForced(_) => false
    case Commit(m) => !m.cause.Forced?
    case Announce(m) => !m.cause.Forced?
    case OnEnter(m, _) => !m.cause.Forced?
    case _ => true
  }

  /** No forced move is in flight. */
  ghost predicate UnforcedWorkers(sys: Sys) {
    forall w :: w in sys.workers ==> UnforcedPc(sys.workers[w])
  }

  /** No commit from number `from` on was forced. */
  ghost predicate UnforcedFrom(log: seq<Committed>, from: nat) {
    forall i :: from <= i < |log| ==> !log[i].move.cause.Forced?
  }

  ghost predicate Unforced(sys: Sys) {
    UnforcedWorkers(sys) && UnforcedFrom(sys.shared.log, 0)
  }

  lemma StepUnforced(cfg: Config, s: Shared, w: WorkerId, pc: Pc, c: Choice)
    requires UnforcedPc(pc)
    ensures var (s', pc') := Step(cfg, s, w, pc, c);
            && UnforcedPc(pc')
            && (s'.log == s.log || (pc.Commit? && s'.log == s.log + [Committed(w, pc.move)]))
  {
    hide Recorded, Decide, StoreMerge, StatusFor, RecordPatch, ResultsPatch, BranchInput;
  }

  lemma ApplyUnforced(cfg: Config, sys: Sys, a: Action, from: nat)
    requires UnforcedWorkers(sys) && UnforcedFrom(sys.shared.log, from) && !a.LaunchForced?
    ensures UnforcedWorkers(Apply(cfg, sys, a)) && UnforcedFrom(Apply(cfg, sys, a).shared.log, from)
  {
    hide Step, MergeData;
    if a.Act? && a.w in sys.workers {
      StepUnforced(cfg, sys.shared, a.w, sys.workers[a.w], a.choice);
    } else if a.AgentMerge? {
      assert MergeData(cfg, sys.shared, a.patch).log == sys.shared.log by { MergeLog(cfg, sys.shared, a.patch); }
    }
  }

  lemma MergeLog(cfg: Config, s: Shared, patch: Fields)
    ensures MergeData(cfg, s, patch).log == s.log
  {
  }

  lemma {:induction false} LaterUnforced(cfg: Config, actions: seq<Action>, more: seq<Action>)
    requires UnforcedWorkers(Reach(cfg, actions)) && NoForce(more)
    ensures UnforcedWorkers(Reach(cfg, actions + more))
    ensures UnforcedFrom(Reach(cfg, actions + more).shared.log, |Reach(cfg, actions).shared.log|)
    decreases |more|
  {
    hide Reach, UnforcedWorkers;
    if more == [] {
      assert actions + more == actions;
    } else {
      var n := |more| - 1;
      LaterUnforced(cfg, actions, more[..n]);
      ApplyUnforced(cfg, Reach(cfg, actions + more[..n]), more[n], |Reach(cfg, actions).shared.log|);
      OneMore(cfg, actions + more[..n], more[n]);
      assert actions + more[..n] + [more[n]] == actions + more;
    }
  }

  lemma RunUnforced(cfg: Config, actions: seq<Action>)
    requires NoForce(actions)
    ensures Unforced(Reach(cfg, actions))
  {
    assert Reach(cfg, []) == Init(cfg);
    LaterUnforced(cfg, [], actions);
    assert [] + actions == actions;
  }

  /** A commit that leaves an End state was forced, in every run. */
  lemma NoStepOutOfEnd(cfg: Config, actions: seq<Action>, i: nat)
    requires Registered(cfg) && i < |Reach(cfg, actions).shared.log|
    requires cfg.def.HasType(StateAt(cfg, Reach(cfg, actions).shared.log, i), End)
    ensures Reach(cfg, actions).shared.log[i].move.cause.Forced?
  {
    Reachable(cfg, actions);
    assert CommitOk(cfg, Reach(cfg, actions).shared.log, i);
  }

  /** End is absorbing: once it is reached and no forced move is in flight or launched later, no worker, however
      stale, commits anything more. */
  lemma EndAbsorbing(cfg: Config, actions: seq<Action>, more: seq<Action>)
    requires Registered(cfg) && UnforcedWorkers(Reach(cfg, actions)) && NoForce(more)
    requires cfg.def.HasType(Reach(cfg, actions).shared.task.currentState, End)
    ensures Reach(cfg, actions + more).shared.log == Reach(cfg, actions).shared.log
    ensures Reach(cfg, actions + more).shared.task.currentState == Reach(cfg, actions).shared.task.currentState
  {
    var s, s' := Reach(cfg, actions).shared, Reach(cfg, actions + more).shared;
    Reachable(cfg, actions);
    Reachable(cfg, actions + more);
    ReachGrows(cfg, actions, more);
    LaterUnforced(cfg, actions, more);
    StateAtStable(cfg, s.log, s'.log, |s.log|);
    if |s.log| < |s'.log| {
      NoStepOutOfEnd(cfg, actions + more, |s.log|);
      assert false;
    }
  }

  // ── the status tracks the state ──

  /** The last word on the status was a cancellation: nothing has been committed since it. */
  ghost predicate CancelStands(cfg: Config, actions: seq<Action>) {
    exists n :: 0 <= n < |actions| && CancelledAt(cfg, actions, n)
  }

  ghost predicate CancelledAt(cfg: Config, actions: seq<Action>, n: nat) {
    n < |actions| && actions[n].Cancel? && Reach(cfg, actions[..n]).shared.log == Reach(cfg, actions).shared.log
  }

  lemma StepStatus(cfg: Config, s: Shared, w: WorkerId, pc: Pc, c: Choice)
    ensures var s' := Step(cfg, s, w, pc, c).0;
            || (s'.log == s.log && s'.task.status == s.task.status)
            || (|s'.log| == |s.log| + 1 && s'.task.status != Cancelled)
  {
    hide Recorded, Decide, RecordPatch, ResultsPatch, BranchInput, AfterRead, AfterFailure, AfterScan, AfterSweep;
  }

  lemma ApplyStatus(cfg: Config, sys: Sys, a: Action)
    ensures var s, s' := sys.shared, Apply(cfg, sys, a).shared;
            && (a.Cancel? ==> s'.log == s.log && s'.task.status == Cancelled)
            && (!a.Cancel? ==>
                  || (s'.log == s.log && s'.task.status == s.task.status)
                  || (|s'.log| == |s.log| + 1 && s'.task.status != Cancelled))
  {
    hide Step;
    if a.Act? && a.w in sys.workers {
      StepStatus(cfg, sys.shared, a.w, sys.workers[a.w], a.choice);
    }
  }

  /** A task is cancelled exactly when a cancellation came after the last commit: the next commit undoes it. */
  lemma {:induction false} CancelledExactly(cfg: Config, actions: seq<Action>)
    requires Registered(cfg)
    ensures Reach(cfg, actions).shared.task.status == Cancelled <==> CancelStands(cfg, actions)
    decreases |actions|
  {
    if actions != [] {
      hide Apply;
      var n := |actions| - 1;
      var before, a := actions[..n], actions[n];
      CancelledExactly(cfg, before);
      ApplyStatus(cfg, Reach(cfg, before), a);
      OneMore(cfg, before, a);
      assert before + [a] == actions;
      if a.Cancel? {
        assert CancelledAt(cfg, actions, n);
      } else {
        CancelEarlier(cfg, before, a);
      }
    }
  }

  lemma CancelEarlier(cfg: Config, before: seq<Action>, a: Action)
    requires Registered(cfg) && !a.Cancel?
    ensures CancelStands(cfg, before + [a])
        <==> CancelStands(cfg, before) && Reach(cfg, before + [a]).shared.log == Reach(cfg, before).shared.log
  {
    hide Reach;
    var actions := before + [a];
    forall k | 0 <= k < |before|
      ensures CancelledAt(cfg, actions, k)
          <==> CancelledAt(cfg, before, k) && Reach(cfg, actions).shared.log == Reach(cfg, before).shared.log
    {
      assert actions[..k] == before[..k];
      assert before[..k] + before[k..] == before;
      ReachGrows(cfg, before[..k], before[k..]);
      ReachGrows(cfg, before, [a]);
    }
  }

  /** Unless a cancellation stands, a task waits for approval exactly at Gates and is finished exactly at End
      states. */
  lemma StatusTracksState(cfg: Config, actions: seq<Action>)
    requires Registered(cfg)
    ensures var t := Reach(cfg, actions).shared.task;
            && t.currentState in cfg.def.states
            && (t.status == Cancelled <==> CancelStands(cfg, actions))
            && (!CancelStands(cfg, actions) ==>
                  && (t.status == WaitingApproval <==> cfg.def.HasType(t.currentState, Gate))
                  && (t.status == Completed || t.status.Failed? <==> cfg.def.HasType(t.currentState, End)))
  {
    Reachable(cfg, actions);
    CancelledExactly(cfg, actions);
  }
}
