/** What the choice of a transition looks at: the data, the approval, the clock and the registry. */
module FlowChoice {
  import opened Wrappers
  import opened JsonValues
  import opened Condition
  import opened Flow
  import opened FlowEngine
  import opened FlowSafety
  import opened FlowTheorems
  import opened FlowHistory
  import opened ConditionMeaning

  /** The transition asks whether a high-risk tool is planned. */
  predicate AsksRisk(t: TransitionDef) {
    !t.IsAuto() && t.condition == Some("has_high_risk_tools")
  }

  /** A commit taken on `has_high_risk_tools` was made on data that plan a tool registered with high risk; one taken by a
      transition listed after such a one was made on data that plan none. */
  lemma HighRiskDecides(cfg: Config, actions: seq<Action>, i: nat, j: nat)
    requires Registered(cfg) && i < |Reach(cfg, actions).shared.log|
    requires var m := Reach(cfg, actions).shared.log[i].move;
             m.cause.Matched? && Ordinary(cfg, m.snap) && j < |StateOf(cfg, m.snap).transitions|
             && AsksRisk(StateOf(cfg, m.snap).transitions[j])
    ensures var m := Reach(cfg, actions).shared.log[i].move;
            && (m.cause.index == j ==> PlansHighRisk(m.snap.stateData, cfg.tools))
            && (j < m.cause.index ==> !PlansHighRisk(m.snap.stateData, cfg.tools))
  {
    hide Reach, Evaluate, PlansHighRisk;
    EveryStepJustified(cfg, actions, i);
    var m := Reach(cfg, actions).shared.log[i].move;
    HighRiskMeans(Facts(m.snap.stateData, m.cause.flow.pendingApproval, m.cause.now, cfg.tools));
  }

  /** What `cause` says a worker read is what it read: the task at some moment, the flow state at a later one, the clock at
      that same step; and the next step commits that move. */
  lemma ChosenWhere(cfg: Config, s: Shared, w: WorkerId, i: nat, snap: Task, c: Choice)
    requires Ordinary(cfg, snap)
    ensures var pc := Step(cfg, s, w, ReadFlow(i, snap), c).1;
            pc.Commit? ==>
              && c.ok && pc.move.snap == snap
              && pc.move.cause.Matched? && pc.move.cause.iteration == i
              && pc.move.cause.flow == s.flow && pc.move.cause.now == c.now
  {
    hide Decide;
  }

  /** Where a worker turns after reading the task at the head of the loop: it ends with an error at a state nobody defined,
      ends well at an End state and at a fork without branches, spawns or checks at a fork, and goes on to read the flow state
      anywhere else. The store is as it was. */
  lemma ReadTurns(cfg: Config, s: Shared, w: WorkerId, i: nat, c: Choice)
    ensures var (s', pc) := Step(cfg, s, w, ReadTask(i), c);
            var state := s.task.currentState;
            && s' == s
            && (pc == Done(Err(StoreFault)) <==> !c.ok)
            && (c.ok ==>
                  && (pc == Done(Err(UnknownState)) <==> state !in cfg.def.states)
                  && (pc == Done(Ok(())) <==>
                        || cfg.def.HasType(state, End)
                        || (cfg.def.HasType(state, Parallel) && cfg.def.states[state].branches in {None, Some([])}))
                  && (pc.Spawn? || pc.ScanBranches? <==>
                        cfg.def.HasType(state, Parallel) && cfg.def.states[state].branches !in {None, Some([])})
                  && (pc == ReadFlow(i, s.task) <==>
                        state in cfg.def.states && cfg.def.states[state].stateType in {Start, Agent, Gate}))
  {
    hide Recorded;
  }

  /** And after reading the flow state: it stops well where nothing fires, with the condition's error where one is blank, and
      otherwise goes on to commit. */
  lemma ChoiceTurns(cfg: Config, s: Shared, w: WorkerId, i: nat, snap: Task, c: Choice)
    requires Ordinary(cfg, snap) && c.ok
    ensures var pc := Step(cfg, s, w, ReadFlow(i, snap), c).1;
            var ts, facts := StateOf(cfg, snap).transitions, Facts(snap.stateData, s.flow.pendingApproval, c.now, cfg.tools);
            && (pc == Done(Ok(())) <==>
                  forall j :: 0 <= j < |ts| ==>
                    !ts[j].IsAuto() && (ts[j].condition.Some? ==> Evaluate(ts[j].condition.value, facts) == Ok(false)))
            && (forall k: nat :: k < |ts| ==>
                  (pc == Commit(Move(snap, ts[k].to, Matched(i, s.flow, k, c.now))) <==> FirstFiring(ts, k, facts)))
            && (pc == Done(Ok(())) || pc.Commit? || (pc.Done? && pc.outcome.Err? && pc.outcome.error.BadCondition?))
  {
    hide Evaluate, Decide;
    var ts, facts := StateOf(cfg, snap).transitions, Facts(snap.stateData, s.flow.pendingApproval, c.now, cfg.tools);
    assert facts == FactsOf(cfg, snap, s.flow, c.now);
    DecideFirst(ts, facts);
    assert forall j :: 0 <= j < |ts| ==>
        (Fires(ts[j], facts) == Ok(false) <==>
           !ts[j].IsAuto() && (ts[j].condition.Some? ==> Evaluate(ts[j].condition.value, facts) == Ok(false)));
  }

  /** What follows a transition that failed, here one that met a conflict: only an ordinary one in a listed state is retried,
      with one more retry counted, until the allowed number is reached; then the fallback is tried, if there is such a state. */
  lemma FailureTurns(cfg: Config, s: Shared, w: WorkerId, m: Move, c: Choice)
    requires s.task.version != m.snap.version
    ensures var (s', pc) := Step(cfg, s, w, Commit(m), c);
            && s' == s
            && (if m.cause.Matched? && cfg.def.onError.Some? && m.snap.currentState in cfg.def.onError.value.retryStates then
                  var policy, flow := cfg.def.onError.value, m.cause.flow;
                  if flow.retryCount < policy.maxRetries then
                    pc == SaveRetry(m.snap, FlowState(flow.currentState, flow.history, flow.pendingApproval, flow.retryCount + 1))
                  else if policy.fallback in cfg.def.states then
                    pc == Commit(Move(m.snap, policy.fallback, Fallback(flow, false)))
                  else pc == Done(Err(UnknownTarget))
                else pc == Done(Err(Conflict)))
  {
  }

  /** Entering a state does its actions one by one: publishing and logging change nothing, setting a variable gives it its
      value in the task data and touches no other; after the last one, a cascading worker goes on and any other ends well. */
  lemma EntryTurns(cfg: Config, s: Shared, w: WorkerId, m: Move, k: nat, c: Choice)
    requires m.target in cfg.def.states
    ensures var (s', pc) := Step(cfg, s, w, OnEnter(m, k), c);
            var actions := cfg.def.states[m.target].onEnter.GetOr([]);
            && (k >= |actions| ==> s' == s && (m.cause.Matched? || pc == Done(Ok(()))))
            && (k < |actions| && pc == OnEnter(m, k + 1) ==>
                  match actions[k]
                  case SetVariable(key, value) =>
                    && key in s'.task.stateData && (!value.Obj? ==> s'.task.stateData[key] == value)
                    && (cfg.backend.Sqlite? ==> s'.task.stateData == s.task.stateData[key := value])
                    && (forall other :: other in s.task.stateData && other != key ==>
                          other in s'.task.stateData && s'.task.stateData[other] == s.task.stateData[other])
                    && s' == s.(task := s.task.(stateData := s'.task.stateData))
                  case _ => s' == s)
            && (k < |actions| ==> (pc == OnEnter(m, k + 1) <==> c.ok || actions[k].Log?))
  {
    var actions := cfg.def.states[m.target].onEnter.GetOr([]);
    if k < |actions| && actions[k].SetVariable? {
      var key, value := actions[k].key, actions[k].value;
      assert !value.Obj? ==> Merged(Existing(s.task.stateData, key), value) == value;
      assert map[key := value][key] == value;
    }
  }
}
