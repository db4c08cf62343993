/** Flow definitions, tasks and flow states, as the engine reads and writes them. */
module Flow {
  import opened Wrappers
  import opened JsonValues
  import opened Condition

  type StateName = string
  type TaskId = string

  datatype StateType = Start | Agent | Gate | Parallel | End

  datatype GateDef = GateDef(approverRole: string, onTimeout: string)

  datatype TransitionDef = TransitionDef(to: StateName, condition: Option<string>, auto: Option<bool>) {
    predicate IsAuto() { auto == Some(true) }
  }

  datatype OnEnterAction =
    | PublishEvent(eventType: string)
    | SetVariable(key: string, value: Json)
    | Log(message: string)

  datatype BranchDef = BranchDef(agent: string, skill: string, inputMapping: Option<map<string, string>>)

  datatype JoinStrategy = All | FailFast

  datatype StateDef = StateDef(
    stateType: StateType,
    gate: Option<GateDef>,
    onEnter: Option<seq<OnEnterAction>>,
    transitions: seq<TransitionDef>,
    branches: Option<seq<BranchDef>>,
    joinStrategy: Option<JoinStrategy>,
    timeoutSecs: Option<nat>)

  datatype ErrorPolicy = ErrorPolicy(maxRetries: nat, retryStates: seq<StateName>, fallback: StateName)

  datatype FlowDef = FlowDef(
    id: string,
    initialState: StateName,
    states: map<StateName, StateDef>,
    onError: Option<ErrorPolicy>)
  {
    predicate HasType(state: StateName, stateType: StateType) {
      state in states && states[state].stateType == stateType
    }

    /** The states named by a set of definitions with the given type. */
    function OfType(stateType: StateType): set<StateName> {
      set s | s in states && states[s].stateType == stateType
    }
  }

  datatype TaskStatus = Running | WaitingApproval | Completed | Failed(error: string) | Cancelled

  datatype Task = Task(currentState: StateName, stateData: Fields, status: TaskStatus, version: nat)

  datatype FlowState = FlowState(
    currentState: StateName,
    history: seq<(StateName, StateName)>,
    pendingApproval: Option<Approval>,
    retryCount: nat)

  datatype BranchTask = BranchTask(input: Json, status: TaskStatus, output: Option<Json>)

  // ── validation ──

  /** What `validate_flow_def` rejects, one constructor per error it can report. */
  datatype Defect =
    | StartCount(count: nat)
    | NoEnd
    | GateWithoutField(state: StateName)
    | AutoOutOfGate(state: StateName, index: nat)
    | DanglingTarget(state: StateName, index: nat)
    | UnknownFallback
    | UnknownRetryState(index: nat)

  predicate HasDefect(def: FlowDef, d: Defect) {
    match d
    case StartCount(count) => count == |def.OfType(Start)| && count != 1
    case NoEnd => def.OfType(End) == {}
    case GateWithoutField(s) => def.HasType(s, Gate) && def.states[s].gate.None?
    case AutoOutOfGate(s, i) =>
      def.HasType(s, Gate) && i < |def.states[s].transitions| && def.states[s].transitions[i].IsAuto()
    case DanglingTarget(s, i) =>
      s in def.states && i < |def.states[s].transitions| && def.states[s].transitions[i].to !in def.states
    case UnknownFallback => def.onError.Some? && def.onError.value.fallback !in def.states
    case UnknownRetryState(i) =>
      def.onError.Some? && i < |def.onError.value.retryStates| && def.onError.value.retryStates[i] !in def.states
  }

  predicate StateOk(def: FlowDef, s: StateName)
    requires s in def.states
  {
    var d := def.states[s];
    && (d.stateType.Gate? ==> d.gate.Some?)
    && (forall i :: 0 <= i < |d.transitions| ==>
          (d.stateType.Gate? ==> !d.transitions[i].IsAuto()) && d.transitions[i].to in def.states)
  }

  predicate PolicyOk(def: FlowDef) {
    def.onError.Some? ==>
      && def.onError.value.fallback in def.states
      && forall i :: 0 <= i < |def.onError.value.retryStates| ==> def.onError.value.retryStates[i] in def.states
  }

  /** The structure every registered definition has. */
  predicate WellFormed(def: FlowDef) {
    && |def.OfType(Start)| == 1
    && def.OfType(End) != {}
    && (forall s :: s in def.states ==> StateOk(def, s))
    && PolicyOk(def)
  }

  /** A definition is well formed exactly when it has no defect. */
  lemma WellFormedExactly(def: FlowDef)
    ensures WellFormed(def) <==> forall d: Defect :: !HasDefect(def, d)
  {
    if !WellFormed(def) {
      if |def.OfType(Start)| != 1 {
        assert HasDefect(def, StartCount(|def.OfType(Start)|));
      } else if def.OfType(End) == {} {
        assert HasDefect(def, NoEnd);
      } else if s :| s in def.states && !StateOk(def, s) {
        var d := def.states[s];
        if d.stateType.Gate? && d.gate.None? {
          assert HasDefect(def, GateWithoutField(s));
        } else {
          var i :| 0 <= i < |d.transitions| &&
                   ((d.stateType.Gate? && d.transitions[i].IsAuto()) || d.transitions[i].to !in def.states);
          assert HasDefect(def, AutoOutOfGate(s, i)) || HasDefect(def, DanglingTarget(s, i));
        }
      } else if def.onError.value.fallback !in def.states {
        assert HasDefect(def, UnknownFallback);
      } else {
        var retry := def.onError.value.retryStates;
        var i :| 0 <= i < |retry| && retry[i] !in def.states;
        assert HasDefect(def, UnknownRetryState(i));
      }
    }
  }

  /** Checks one state: the gate rules, then every transition target. */
  method ValidateState(def: FlowDef, name: StateName) returns (r: Option<Defect>)
    requires name in def.states
    ensures r.None? <==> StateOk(def, name)
    ensures r.Some? ==> HasDefect(def, r.value)
  {
    var state := def.states[name];
    if state.stateType.Gate? && state.gate.None? {
      return Some(GateWithoutField(name));
    }
    if state.stateType.Gate? {
      for i := 0 to |state.transitions|
        invariant forall j :: 0 <= j < i ==> !state.transitions[j].IsAuto()
      {
        if state.transitions[i].IsAuto() {
          return Some(AutoOutOfGate(name, i));
        }
      }
    }
    for i := 0 to |state.transitions|
      invariant forall j :: 0 <= j < i ==> state.transitions[j].to in def.states
    {
      if state.transitions[i].to !in def.states {
        return Some(DanglingTarget(name, i));
      }
    }
    return None;
  }

  /** Reports a defect exactly when there is one; which one depends on the order the states are visited in. */
  method ValidateFlowDef(def: FlowDef) returns (r: Option<Defect>)
    ensures r.None? <==> WellFormed(def)
    ensures r.Some? ==> HasDefect(def, r.value)
  {
    if |def.OfType(Start)| != 1 {
      return Some(StartCount(|def.OfType(Start)|));
    }
    if def.OfType(End) == {} {
      return Some(NoEnd);
    }
    var todo := def.states.Keys;
    while todo != {}
      invariant todo <= def.states.Keys
      invariant forall s :: s in def.states && s !in todo ==> StateOk(def, s)
      decreases todo
    {
      var name :| name in todo;
      var bad := ValidateState(def, name);
      if bad.Some? {
        return bad;
      }
      todo := todo - {name};
    }
    if def.onError.Some? {
      var policy := def.onError.value;
      if policy.fallback !in def.states {
        return Some(UnknownFallback);
      }
      for i := 0 to |policy.retryStates|
        invariant forall j :: 0 <= j < i ==> policy.retryStates[j] in def.states
      {
        if policy.retryStates[i] !in def.states {
          return Some(UnknownRetryState(i));
        }
      }
    }
    return None;
  }

  /** `start` is a Start state, and the only one. */
  ghost predicate IsTheStart(def: FlowDef, start: StateName) {
    forall s :: s in def.states && def.states[s].stateType == Start <==> s == start
  }

  lemma OneStart(def: FlowDef)
    ensures |def.OfType(Start)| == 1 <==> exists start :: IsTheStart(def, start)
  {
    var starts := def.OfType(Start);
    if |starts| == 1 {
      var start :| start in starts;
      assert |starts - {start}| == 0;
      assert starts == {start};
      forall s ensures s in def.states && def.states[s].stateType == Start <==> s == start {
        assert s in starts <==> s == start;
      }
      assert IsTheStart(def, start);
    }
    if start :| IsTheStart(def, start) {
      assert start in starts;
      assert starts == {start};
    }
  }

  /** At a Gate there is an approver and no automatic way out; no state leads to a name that is not there. */
  predicate Sound(def: FlowDef, d: StateDef) {
    && (d.stateType == Gate ==> d.gate != None && forall t :: t in d.transitions ==> t.auto != Some(true))
    && (forall t :: t in d.transitions ==> t.to in def.states)
  }

  lemma StateSound(def: FlowDef, s: StateName)
    requires s in def.states
    ensures StateOk(def, s) <==> Sound(def, def.states[s])
  {
  }

  lemma SomeEnd(def: FlowDef)
    ensures def.OfType(End) != {} <==> exists s :: s in def.states && def.states[s].stateType == End
  {
    if s :| s in def.states && def.states[s].stateType == End {
      assert s in def.OfType(End);
    }
    if def.OfType(End) != {} {
      var s :| s in def.OfType(End);
    }
  }

  lemma PolicySound(def: FlowDef)
    ensures PolicyOk(def) <==>
              def.onError.Some? ==>
                def.onError.value.fallback in def.states
                && forall s :: s in def.onError.value.retryStates ==> s in def.states
  {
    if def.onError.Some? {
      var retry := def.onError.value.retryStates;
      assert forall i :: 0 <= i < |retry| ==> retry[i] in retry;
    }
  }

  /** What a registered definition can be relied on for: one Start state and no other, some End state, and no name of a
      state that is not there. */
  lemma WellFormedMeans(def: FlowDef)
    ensures WellFormed(def) <==>
              && (exists start :: IsTheStart(def, start))
              && (exists s :: s in def.states && def.states[s].stateType == End)
              && (forall s :: s in def.states ==> Sound(def, def.states[s]))
              && (def.onError.Some? ==>
                    def.onError.value.fallback in def.states
                    && forall s :: s in def.onError.value.retryStates ==> s in def.states)
  {
    hide StateOk, Sound, IsTheStart, PolicyOk;
    OneStart(def);
    SomeEnd(def);
    PolicySound(def);
    forall s | s in def.states ensures StateOk(def, s) <==> Sound(def, def.states[s]) {
      StateSound(def, s);
    }
  }
}
