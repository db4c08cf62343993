/** Runs in which nobody puts an approval into the flow state. Both shipped stores read every flow state back without one,
    so these are all the runs they give. */
module FlowApproval {
  import opened Wrappers
  import opened JsonValues
  import opened Condition
  import opened Flow
  import opened FlowEngine
  import opened FlowSafety
  import opened FlowTheorems
  import opened FlowHistory
  import opened FlowRetry

  ghost predicate NoApproval(actions: seq<Action>) {
    forall i :: 0 <= i < |actions| ==> !actions[i].Approve?
  }

  lemma StepApproval(cfg: Config, s: Shared, w: WorkerId, pc: Pc, c: Choice)
    requires !pc.SaveRetry? || !c.ok
    ensures Step(cfg, s, w, pc, c).0.flow.pendingApproval == s.flow.pendingApproval
  {
    hide Recorded, Decide, StoreMerge, StatusFor, RecordPatch, ResultsPatch, BranchInput, AfterRead, AfterFailure,
         AfterScan, AfterSweep;
  }

  lemma ApplyApproval(cfg: Config, sys: Sys, a: Action)
    requires !Saves(sys, a) && !a.Approve?
    ensures Apply(cfg, sys, a).shared.flow.pendingApproval == sys.shared.flow.pendingApproval
  {
    hide Step, MergeData;
    if a.Act? && a.w in sys.workers { StepApproval(cfg, sys.shared, a.w, sys.workers[a.w], a.choice); }
    if a.AgentMerge? { MergeFlow(cfg, sys.shared, a.patch); }
  }

  /** The store never holds an approval: a saved retry brings back a flow state that had none either. */
  lemma {:induction false} NonePending(cfg: Config, actions: seq<Action>)
    requires NoApproval(actions)
    ensures Reach(cfg, actions).shared.flow.pendingApproval.None?
    decreases |actions|
  {
    if actions == [] {
      assert Init(cfg).shared.flow.pendingApproval.None?;
    } else {
      hide Step, MergeData, Reach;
      var n := |actions| - 1;
      NonePending(cfg, actions[..n]);
      var sys, a := Reach(cfg, actions[..n]), actions[n];
      assert actions[..n] + [a] == actions;
      OneMore(cfg, actions[..n], a);
      if Saves(sys, a) {
        var f := SavedFrom(cfg, actions[..n], a.w);
        NonePending(cfg, actions[..n][..f]);
        SaveWrites(cfg, sys.shared, a.w, sys.workers[a.w], a.choice);
      } else {
        ApplyApproval(cfg, sys, a);
      }
    }
  }

  // ── conditions that need an approval ──

  /** Never true while no approval is pending, whatever else holds. */
  ghost predicate NeedsApproval(condition: string) {
    forall facts: Facts :: facts.approval.None? ==> Evaluate(condition, facts) != Ok(true)
  }

  /** Every way to make the expression true goes through one of the four names that look at the approval. */
  predicate Asks(expr: CondExpr) {
    match expr
    case Ident(name) => name in ["approved", "denied", "needs_changes", "timeout"]
    case And(left, right) => Asks(left) || Asks(right)
    case Or(left, right) => Asks(left) && Asks(right)
    case _ => false
  }

  lemma {:induction false} AsksFails(expr: CondExpr, facts: Facts)
    requires Asks(expr) && facts.approval.None?
    ensures !EvalExpr(expr, facts)
  {
    match expr {
      case And(left, right) =>
        if Asks(left) { AsksFails(left, facts); } else { AsksFails(right, facts); }
      case Or(left, right) =>
        AsksFails(left, facts);
        AsksFails(right, facts);
      case _ =>
    }
  }

  /** A condition whose parse asks for an approval needs one. */
  lemma AsksNeeds(condition: string)
    requires Parse(condition).Ok? && Asks(Parse(condition).value)
    ensures NeedsApproval(condition)
  {
    hide Parse;
    forall facts: Facts | facts.approval.None?
      ensures Evaluate(condition, facts) != Ok(true)
    {
      AsksFails(Parse(condition).value, facts);
    }
  }

  /** A Gate that every listed condition opens only on an approval. */
  ghost predicate ApprovalGate(cfg: Config, state: StateName) {
    && cfg.def.HasType(state, Gate)
    && forall i :: 0 <= i < |cfg.def.states[state].transitions| && cfg.def.states[state].transitions[i].condition.Some?
         ==> NeedsApproval(cfg.def.states[state].transitions[i].condition.value)
  }

  /** Without approvals such a Gate is left only by force, or by the fallback after the store lost a commit. */
  lemma GateLeftByForce(cfg: Config, actions: seq<Action>, i: nat)
    requires Registered(cfg) && NoApproval(actions) && i < |Reach(cfg, actions).shared.log|
    requires ApprovalGate(cfg, Reach(cfg, actions).shared.log[i].move.snap.currentState)
    ensures var cause := Reach(cfg, actions).shared.log[i].move.cause;
            cause.Forced? || (cause.Fallback? && cause.lost && !cfg.reliable)
  {
    hide Reach, Evaluate;
    EveryStepJustified(cfg, actions, i);
    EverythingSeen(cfg, actions);
    assert CommitSeen(cfg, actions, i);
    var n: nat :| CommittedBy(cfg, actions, i, n);
    var m := Reach(cfg, actions).shared.log[i].move;
    if m.cause.Matched? {
      var t: nat, f: nat :| t <= f <= n && Reach(cfg, actions[..n][..t]).shared.task == m.snap
        && Reach(cfg, actions[..n][..f]).shared.flow == m.cause.flow;
      NonePending(cfg, actions[..n][..f]);
    }
  }

  /** A task that waits at such a Gate under a reliable store waits for ever, as long as nobody forces it on. */
  lemma GateHolds(cfg: Config, actions: seq<Action>, more: seq<Action>)
    requires Registered(cfg) && cfg.reliable && NoApproval(actions + more)
    requires UnforcedWorkers(Reach(cfg, actions)) && NoForce(more)
    requires ApprovalGate(cfg, Reach(cfg, actions).shared.task.currentState)
    ensures Reach(cfg, actions + more).shared.log == Reach(cfg, actions).shared.log
    ensures Reach(cfg, actions + more).shared.task.currentState == Reach(cfg, actions).shared.task.currentState
  {
    hide ApprovalGate, Reach;
    var s, s' := Reach(cfg, actions).shared, Reach(cfg, actions + more).shared;
    Reachable(cfg, actions);
    Reachable(cfg, actions + more);
    ReachGrows(cfg, actions, more);
    LaterUnforced(cfg, actions, more);
    StateAtStable(cfg, s.log, s'.log, |s.log|);
    if |s.log| < |s'.log| {
      assert CommitOk(cfg, s'.log, |s.log|);
      GateLeftByForce(cfg, actions + more, |s.log|);
      assert false;
    }
  }
}
