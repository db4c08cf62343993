/** The depth limit is tight: one state more, and a worker that has reached End still reports an error. */
module FlowDepth {
  import opened Wrappers
  import opened JsonValues
  import opened Condition
  import opened Flow
  import opened FlowEngine
  import opened FlowSafety
  import opened FlowTheorems
  import opened FlowCascade

  /** The `i`th state of the chain. */
  function Name(i: nat): (r: StateName)
    ensures |r| == i
  {
    seq(i, _ => 's')
  }

  function Names(n: nat): set<StateName> {
    set i: nat | 0 <= i <= n :: Name(i)
  }

  function ChainState(i: nat, n: nat): StateDef {
    StateDef(
      if i == 0 then Start else if i == n then End else Agent,
      None, None,
      if i < n then [TransitionDef(Name(i + 1), None, Some(true))] else [],
      None, None, None)
  }

  /** A chain of `n` automatic transitions over `n + 1` states, from a Start to an End. */
  function Chain(n: nat): FlowDef {
    FlowDef("chain", Name(0), map s | s in Names(n) :: ChainState(|s|, n), None)
  }

  function ChainConfig(n: nat): Config {
    Config(Chain(n), map[], Postgres, true, _ => true)
  }

  lemma {:induction false} NamesCount(n: nat)
    ensures |Names(n)| == n + 1
    decreases n
  {
    if n == 0 {
      assert Names(0) == {Name(0)};
    } else {
      NamesCount(n - 1);
      assert Name(n) !in Names(n - 1) by {
        assert forall i: nat :: i <= n - 1 ==> |Name(i)| != |Name(n)|;
      }
      assert Names(n) == Names(n - 1) + {Name(n)};
    }
  }

  lemma ChainStates(n: nat)
    ensures Chain(n).states.Keys == Names(n)
    ensures forall i: nat :: i <= n ==> Name(i) in Chain(n).states && Chain(n).states[Name(i)] == ChainState(i, n)
    ensures forall s :: s in Chain(n).states ==> s == Name(|s|) && |s| <= n
  {
  }

  lemma ChainAt(n: nat, i: nat)
    requires i <= n
    ensures Name(i) in ChainConfig(n).def.states && ChainConfig(n).def.states[Name(i)] == ChainState(i, n)
    ensures ChainConfig(n).def.onError == None
  {
  }

  lemma ChainRegistered(n: nat)
    requires 0 < n
    ensures Registered(ChainConfig(n)) && |Chain(n).states| == n + 1
  {
    hide Chain, Name, Names, StateOk;
    var def := Chain(n);
    ChainStates(n);
    NamesCount(n);
    assert |def.states| == |def.states.Keys|;
    ChainEnds(n);
    ChainAt(n, 0);
    forall s | s in def.states ensures StateOk(def, s) {
      ChainStateOk(n, s);
    }
    ChainInitial(n);
  }

  lemma ChainInitial(n: nat)
    ensures Chain(n).initialState == Name(0) && Chain(n).onError == None
  {
  }

  lemma ChainEnds(n: nat)
    requires 0 < n
    ensures Chain(n).OfType(Start) == {Name(0)} && Name(n) in Chain(n).OfType(End)
  {
  }

  lemma ChainStateOk(n: nat, s: StateName)
    requires 0 < n && s in Chain(n).states
    ensures StateOk(Chain(n), s)
  {
  }

  lemma ChainEdge(n: nat, a: StateName, b: StateName)
    requires Edge(ChainConfig(n), a, b)
    ensures |b| == |a| + 1
  {
  }

  lemma {:induction false} ChainPath(n: nat, p: seq<StateName>)
    requires p != [] && Path(ChainConfig(n), p)
    ensures |p[|p| - 1]| == |p[0]| + |p| - 1
    decreases |p|
  {
    if |p| > 1 {
      var q := p[..|p| - 1];
      forall i | 0 <= i < |q| - 1 ensures Edge(ChainConfig(n), q[i], q[i + 1]) {
        assert Edge(ChainConfig(n), p[i], p[i + 1]);
      }
      ChainPath(n, q);
      assert Edge(ChainConfig(n), p[|p| - 2], p[|p| - 2 + 1]);
      ChainEdge(n, p[|p| - 2], p[|p| - 1]);
    }
  }

  lemma ChainAcyclic(n: nat)
    ensures Acyclic(ChainConfig(n))
  {
    forall p: seq<StateName> | |p| >= 2 && Path(ChainConfig(n), p) ensures p[0] != p[|p| - 1] {
      ChainPath(n, p);
    }
  }

  // ── one worker walks the chain ──

  const Good: Choice := Choice(true, 0, "")

  /** One round of the loop: read the task, read the flow state, commit, announce, enter. */
  function Rounds(k: nat): (r: seq<Action>)
    ensures |r| == 1 + 5 * k
  {
    if k == 0 then [Launch(0)]
    else Rounds(k - 1) + [Act(0, Good), Act(0, Good), Act(0, Good), Act(0, Good), Act(0, Good)]
  }

  /** The chain's store after `k` rounds, whatever the log and the flow state have become. */
  ghost predicate AtRound(n: nat, sys: Sys, k: nat) {
    && sys.shared.task == Task(Name(k), map[], if k == n then Completed else Running, k)
    && |sys.shared.log| == k
    && sys.workers.Keys == {0}
    && sys.workers[0] == if k >= MAX_CASCADE_DEPTH then Done(Err(CascadeDepth)) else ReadTask(k)
  }

  lemma ChainDecides(n: nat, k: nat, facts: Facts)
    requires k < n
    ensures Decide(ChainState(k, n).transitions, 0, facts) == Take(0)
  {
  }

  function Step0(cfg: Config, sys: Sys): Sys {
    Apply(cfg, sys, Act(0, Good))
  }

  // What each of the five steps does to the store and to the worker.

  lemma ReadStep(n: nat, s: Shared, k: nat)
    requires 0 < n && k < n && s.task.currentState == Name(k)
    ensures Step(ChainConfig(n), s, 0, ReadTask(k), Good) == (s, ReadFlow(k, s.task))
  {
    hide ChainConfig, Name;
    ChainAt(n, k);
  }

  lemma DecideStep(n: nat, s: Shared, k: nat, snap: Task)
    requires 0 < n && k < n && snap.currentState == Name(k)
    ensures Step(ChainConfig(n), s, 0, ReadFlow(k, snap), Good)
         == (s, Commit(Move(snap, Name(k + 1), Matched(k, s.flow, 0, 0))))
  {
    hide ChainConfig, Name, Decide, FactsOf;
    ChainAt(n, k);
    ChainDecides(n, k, FactsOf(ChainConfig(n), snap, s.flow, 0));
  }

  lemma EnterStep(n: nat, s: Shared, k: nat, m: Move)
    requires k <= n && m.target == Name(k)
    ensures Step(ChainConfig(n), s, 0, OnEnter(m, 0), Good) == (s, AfterTransition(m))
  {
    hide ChainConfig, Name, AfterTransition, AfterFailure;
    ChainAt(n, k);
  }

  lemma ChainStatus(n: nat, k: nat, snap: Task)
    requires 0 < n && 0 < k <= n && snap.stateData == map[]
    ensures StatusFor(Chain(n), snap, Name(k)) == if k == n then Completed else Running
  {
  }

  lemma WorkerStep(cfg: Config, sys: Sys)
    requires sys.workers.Keys == {0}
    ensures var (s', pc') := Step(cfg, sys.shared, 0, sys.workers[0], Good);
            Step0(cfg, sys) == Sys(s', map[0 := pc'])
  {
    hide Step;
    assert sys.workers[0 := Step(cfg, sys.shared, 0, sys.workers[0], Good).1]
        == map[0 := Step(cfg, sys.shared, 0, sys.workers[0], Good).1];
  }

  lemma OneRound(n: nat, sys: Sys, k: nat)
    requires 0 < n && k < n && k < MAX_CASCADE_DEPTH && AtRound(n, sys, k)
    ensures var cfg := ChainConfig(n);
            AtRound(n, Step0(cfg, Step0(cfg, Step0(cfg, Step0(cfg, Step0(cfg, sys))))), k + 1)
  {
    hide Chain, StatusFor, AfterRead, AfterFlowRead, StepOnEnter, StepParallel, AfterFailure, Step0;
    var cfg, s := ChainConfig(n), sys.shared;
    var m := Move(s.task, Name(k + 1), Matched(k, s.flow, 0, 0));
    var s' := CommitMove(cfg, s, 0, m);
    ReadStep(n, s, k);
    WorkerStep(cfg, sys);
    DecideStep(n, s, k, s.task);
    WorkerStep(cfg, Sys(s, map[0 := ReadFlow(k, s.task)]));
    WorkerStep(cfg, Sys(s, map[0 := Commit(m)]));
    WorkerStep(cfg, Sys(s', map[0 := Announce(m)]));
    EnterStep(n, s', k + 1, m);
    WorkerStep(cfg, Sys(s', map[0 := OnEnter(m, 0)]));
    ChainStatus(n, k + 1, s.task);
  }

  lemma {:induction false} AfterRounds(n: nat, k: nat)
    requires 0 < n && k <= n && k <= MAX_CASCADE_DEPTH
    ensures AtRound(n, Reach(ChainConfig(n), Rounds(k)), k)
    decreases k
  {
    var cfg := ChainConfig(n);
    if k == 0 {
      assert Rounds(0)[..0] == [];
    } else {
      hide AtRound, ChainConfig, Step0, Reach;
      AfterRounds(n, k - 1);
      var before := Rounds(k - 1);
      var sys := Reach(cfg, before);
      OneRound(n, sys, k - 1);
      FiveSteps(cfg, before);
    }
  }

  lemma FiveSteps(cfg: Config, before: seq<Action>)
    ensures Reach(cfg, before + [Act(0, Good), Act(0, Good), Act(0, Good), Act(0, Good), Act(0, Good)])
         == Step0(cfg, Step0(cfg, Step0(cfg, Step0(cfg, Step0(cfg, Reach(cfg, before))))))
  {
    hide Apply, Init;
    var a := Act(0, Good);
    OneMore(cfg, before, a);
    OneMore(cfg, before + [a], a);
    OneMore(cfg, before + [a] + [a], a);
    OneMore(cfg, before + [a] + [a] + [a], a);
    OneMore(cfg, before + [a] + [a] + [a] + [a], a);
    assert before + [a, a, a, a, a] == before + [a] + [a] + [a] + [a] + [a];
  }

  /** An acyclic chain of 101 states: 100 committed transitions, the task in its End state and completed, and the
      worker that got it there reports the cascade-depth error. */
  lemma DepthLimitTight()
    ensures var cfg, sys := ChainConfig(100), Reach(ChainConfig(100), Rounds(100));
            && Registered(cfg) && Acyclic(cfg) && NoForce(Rounds(100)) && |cfg.def.states| == 101
            && sys.shared.task.version == 100
            && cfg.def.HasType(sys.shared.task.currentState, End)
            && sys.shared.task.status == Completed
            && 0 in sys.workers && sys.workers[0] == Done(Err(CascadeDepth))
  {
    ChainRegistered(100);
    ChainAcyclic(100);
    ChainStates(100);
    AfterRounds(100, 100);
    RoundsUnforced(100);
  }

  lemma {:induction false} RoundsUnforced(k: nat)
    ensures NoForce(Rounds(k))
    decreases k
  {
    if k > 0 { RoundsUnforced(k - 1); }
  }
}
