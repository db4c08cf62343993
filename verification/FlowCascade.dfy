/** How long a run can be: cascading transitions and the depth limit. */
module FlowCascade {
  import opened Wrappers
  import opened JsonValues
  import opened Condition
  import opened Flow
  import opened FlowEngine
  import opened FlowSafety
  import opened FlowTheorems

  /** A step the engine can commit without being forced: a listed transition out of a state that is not an End, or,
      behind a store that can lose a commit, the error policy's fallback. */
  ghost predicate Edge(cfg: Config, a: StateName, b: StateName) {
    && a in cfg.def.states && !cfg.def.states[a].stateType.End?
    && ((exists k :: 0 <= k < |cfg.def.states[a].transitions| && cfg.def.states[a].transitions[k].to == b)
        || (!cfg.reliable && cfg.def.onError.Some? && a in cfg.def.onError.value.retryStates
            && b == cfg.def.onError.value.fallback))
  }

  ghost predicate Path(cfg: Config, p: seq<StateName>) {
    forall i :: 0 <= i < |p| - 1 ==> Edge(cfg, p[i], p[i + 1])
  }

  ghost predicate Acyclic(cfg: Config) {
    forall p: seq<StateName> :: |p| >= 2 && Path(cfg, p) ==> p[0] != p[|p| - 1]
  }

  /** The states the log visits, the initial one first. */
  function Visited(cfg: Config, log: seq<Committed>): (p: seq<StateName>)
    ensures |p| == |log| + 1
  {
    seq(|log| + 1, v requires 0 <= v <= |log| => StateAt(cfg, log, v))
  }

  lemma MoveIsEdge(cfg: Config, m: Move)
    requires Justified(cfg, m) && !m.cause.Forced?
    ensures Edge(cfg, m.snap.currentState, m.target) || (m.cause.Fallback? && !m.cause.lost)
  {
    match m.cause {
      case Matched(_, _, k, _) => assert StateOf(cfg, m.snap).transitions[k].to == m.target;
      case Joined(_, _) =>
        var k := FirstAuto(StateOf(cfg, m.snap).transitions, 0).value;
        assert StateOf(cfg, m.snap).transitions[k].to == m.target;
      case _ =>
    }
  }

  lemma VisitedIsPath(cfg: Config, sys: Sys)
    requires Inv(cfg, sys) && Unforced(sys)
    ensures Path(cfg, Visited(cfg, sys.shared.log))
    ensures forall v :: 0 <= v <= |sys.shared.log| ==> Visited(cfg, sys.shared.log)[v] in cfg.def.states
  {
    var log := sys.shared.log;
    var p := Visited(cfg, log);
    forall v | 0 <= v < |log| ensures Edge(cfg, p[v], p[v + 1]) && p[v] in cfg.def.states {
      assert CommitOk(cfg, log, v);
      MoveIsEdge(cfg, log[v].move);
    }
  }

  lemma NoRepeats(cfg: Config, p: seq<StateName>)
    requires Acyclic(cfg) && Path(cfg, p)
    ensures forall i, j :: 0 <= i < j < |p| ==> p[i] != p[j]
  {
    forall i, j | 0 <= i < j < |p| ensures p[i] != p[j] {
      var q := p[i..j + 1];
      assert Path(cfg, q) by {
        forall k | 0 <= k < |q| - 1 ensures Edge(cfg, q[k], q[k + 1]) {
          assert Edge(cfg, p[i + k], p[i + k + 1]);
        }
      }
    }
  }

  /** Without repetitions a sequence is no longer than the set it draws from. */
  lemma {:induction false} DistinctBound(p: seq<StateName>, states: set<StateName>)
    requires forall i :: 0 <= i < |p| ==> p[i] in states
    requires forall i, j :: 0 <= i < j < |p| ==> p[i] != p[j]
    ensures |p| <= |states|
    decreases |p|
  {
    if p != [] {
      var n := |p| - 1;
      DistinctBound(p[..n], states - {p[n]});
    }
  }

  /** In an acyclic flow a task takes fewer steps than the flow has states, over any run without forced moves. */
  lemma RunLengthBound(cfg: Config, actions: seq<Action>)
    requires Registered(cfg) && NoForce(actions) && Acyclic(cfg)
    ensures Reach(cfg, actions).shared.task.version < |cfg.def.states|
  {
    Reachable(cfg, actions);
    RunUnforced(cfg, actions);
    var sys := Reach(cfg, actions);
    VisitedIsPath(cfg, sys);
    var p := Visited(cfg, sys.shared.log);
    NoRepeats(cfg, p);
    DistinctBound(p, cfg.def.states.Keys);
    assert |cfg.def.states.Keys| == |cfg.def.states|;
  }

  /** With at most 100 states, no worker in any interleaving ends in the cascade-depth error. */
  lemma NeverTooDeep(cfg: Config, actions: seq<Action>, w: WorkerId)
    requires Registered(cfg) && NoForce(actions) && Acyclic(cfg) && |cfg.def.states| <= MAX_CASCADE_DEPTH
    requires w in Reach(cfg, actions).workers
    ensures Reach(cfg, actions).workers[w] != Done(Err(CascadeDepth))
  {
    Reachable(cfg, actions);
    RunLengthBound(cfg, actions);
    assert WorkerOk(cfg, Reach(cfg, actions).shared, Reach(cfg, actions).workers[w]);
  }
}
