/** The timeout sweep of a Parallel state, in every interleaving: which branches it may fail. */
module FlowSweep {
  import opened Wrappers
  import opened JsonValues
  import opened Condition
  import opened Flow
  import opened FlowEngine
  import opened FlowSafety
  import opened FlowTheorems

  /** The branch is there and has completed or failed. */
  predicate Concluded(branches: map<TaskId, BranchTask>, id: TaskId) {
    id in branches && (branches[id].status.Completed? || branches[id].status.Failed?)
  }

  predicate Waits(cfg: Config, snap: Task) {
    AtParallel(cfg, snap) && StrategyOf(StateOf(cfg, snap)).All?
  }

  // ── when a worker read a branch ──

  /** The worker is checking these branches and has read number `j`. */
  predicate PastRead(pc: Pc, snap: Task, ids: seq<TaskId>, j: nat) {
    || (pc.ScanBranches? && pc.snap == snap && pc.ids == ids && j < pc.next)
    || (pc.Sweep? && pc.snap == snap && pc.ids == ids)
  }

  predicate IsPastRead(sys: Sys, w: WorkerId, snap: Task, ids: seq<TaskId>, j: nat) {
    w in sys.workers && PastRead(sys.workers[w], snap, ids, j)
  }

  predicate IsReading(sys: Sys, w: WorkerId, snap: Task, ids: seq<TaskId>, j: nat) {
    w in sys.workers && sys.workers[w].ScanBranches?
    && sys.workers[w].snap == snap && sys.workers[w].ids == ids && sys.workers[w].next == j
  }

  /** Action `n` is where the worker, in the check it is still making, read branch number `j`. */
  ghost predicate ReadAt(cfg: Config, actions: seq<Action>, w: WorkerId, snap: Task, ids: seq<TaskId>, j: nat, n: nat) {
    && n < |actions| && j < |ids| && actions[n].Act? && actions[n].w == w
    && IsReading(Reach(cfg, actions[..n]), w, snap, ids, j)
    && forall m :: n < m <= |actions| ==> IsPastRead(Reach(cfg, actions[..m]), w, snap, ids, j)
  }

  /** In the check it is still making, the worker has read branch number `j`, and it was concluded. */
  ghost predicate SawConcluded(cfg: Config, actions: seq<Action>, w: WorkerId, snap: Task, ids: seq<TaskId>, j: nat) {
    exists n: nat :: SawAt(cfg, actions, w, snap, ids, j, n)
  }

  ghost predicate SawAt(cfg: Config, actions: seq<Action>, w: WorkerId, snap: Task, ids: seq<TaskId>, j: nat, n: nat) {
    ReadAt(cfg, actions, w, snap, ids, j, n) && Concluded(Reach(cfg, actions[..n]).shared.branches, ids[j])
  }

  ghost predicate WasRead(cfg: Config, actions: seq<Action>, w: WorkerId, snap: Task, ids: seq<TaskId>, j: nat) {
    exists n: nat :: ReadAt(cfg, actions, w, snap, ids, j, n)
  }

  /** What the worker holds about branch number `j` agrees with what it read: a result if it saw the branch concluded
      and, among distinct branches, only then. */
  ghost predicate Agrees(cfg: Config, actions: seq<Action>, w: WorkerId, snap: Task, ids: seq<TaskId>, j: nat,
                         results: Results)
    requires j < |ids|
  {
    && (SawConcluded(cfg, actions, w, snap, ids, j) ==> ids[j] in results)
    && (Distinct(ids) && ids[j] in results ==> SawConcluded(cfg, actions, w, snap, ids, j))
  }

  ghost predicate Remembers(cfg: Config, actions: seq<Action>, w: WorkerId, snap: Task, ids: seq<TaskId>, j: nat,
                            results: Results)
  {
    && j < |ids|
    && Agrees(cfg, actions, w, snap, ids, j, results)
    && (Waits(cfg, snap) ==> WasRead(cfg, actions, w, snap, ids, j))
  }

  /** A scan remembers the branches it has passed, a sweep those it has still to pass: under `All` it has read them,
      under `FailFast` it may have stopped before them. */
  ghost predicate Knows(cfg: Config, actions: seq<Action>, w: WorkerId, pc: Pc) {
    match pc
    case ScanBranches(snap, ids, k, scan) =>
      forall j: nat :: j < k ==> Remembers(cfg, actions, w, snap, ids, j, scan.results)
    case Sweep(snap, ids, k, scan) =>
      forall j: nat :: k <= j < |ids| ==> Remembers(cfg, actions, w, snap, ids, j, scan.results)
    case _ => true
  }

  ghost predicate AllKnow(cfg: Config, actions: seq<Action>) {
    var sys := Reach(cfg, actions);
    forall w :: w in sys.workers ==> Knows(cfg, actions, w, sys.workers[w])
  }

  // ── remembering goes on ──

  lemma ReadStays(cfg: Config, actions: seq<Action>, a: Action, w: WorkerId, snap: Task, ids: seq<TaskId>, j: nat, n: nat)
    requires ReadAt(cfg, actions, w, snap, ids, j, n)
    requires IsPastRead(Reach(cfg, actions + [a]), w, snap, ids, j)
    ensures ReadAt(cfg, actions + [a], w, snap, ids, j, n)
  {
    hide Reach;
    var longer := actions + [a];
    assert longer[..n] == actions[..n] && longer[..|longer|] == longer;
    forall m | n < m <= |longer| ensures IsPastRead(Reach(cfg, longer[..m]), w, snap, ids, j) {
      if m < |longer| { assert longer[..m] == actions[..m]; }
    }
  }

  /** A read in the longer run is the last action, or was there before and the worker has been past it since. */
  lemma ReadWas(cfg: Config, actions: seq<Action>, a: Action, w: WorkerId, snap: Task, ids: seq<TaskId>, j: nat, n: nat)
    requires ReadAt(cfg, actions + [a], w, snap, ids, j, n)
    ensures n == |actions| ==> IsReading(Reach(cfg, actions), w, snap, ids, j)
    ensures n < |actions| ==> ReadAt(cfg, actions, w, snap, ids, j, n) && IsPastRead(Reach(cfg, actions), w, snap, ids, j)
  {
    hide Reach;
    var longer := actions + [a];
    assert longer[..|actions|] == actions && actions[..|actions|] == actions;
    if n < |actions| {
      assert longer[..n] == actions[..n];
      forall m | n < m <= |actions| ensures IsPastRead(Reach(cfg, actions[..m]), w, snap, ids, j) {
        assert longer[..m] == actions[..m];
      }
    }
  }

  /** In one check a branch is read once. */
  lemma ReadOnce(cfg: Config, actions: seq<Action>, w: WorkerId, snap: Task, ids: seq<TaskId>, j: nat, n: nat, m: nat)
    requires ReadAt(cfg, actions, w, snap, ids, j, n) && ReadAt(cfg, actions, w, snap, ids, j, m)
    ensures n == m
  {
    hide Reach;
    assert n < m ==> IsPastRead(Reach(cfg, actions[..m]), w, snap, ids, j);
    assert m < n ==> IsPastRead(Reach(cfg, actions[..n]), w, snap, ids, j);
  }

  /** So a branch that was read is one the worker saw concluded exactly if it was concluded at that moment. */
  lemma SawExactly(cfg: Config, actions: seq<Action>, w: WorkerId, snap: Task, ids: seq<TaskId>, j: nat, n: nat)
    requires ReadAt(cfg, actions, w, snap, ids, j, n)
    ensures j < |ids| && n < |actions|
    ensures SawConcluded(cfg, actions, w, snap, ids, j) <==> Concluded(Reach(cfg, actions[..n]).shared.branches, ids[j])
  {
    hide Reach, ReadAt;
    ReadBounds(cfg, actions, w, snap, ids, j, n);
    forall m: nat | SawAt(cfg, actions, w, snap, ids, j, m) ensures m == n {
      ReadOnce(cfg, actions, w, snap, ids, j, m, n);
    }
    assert SawAt(cfg, actions, w, snap, ids, j, n) <==> Concluded(Reach(cfg, actions[..n]).shared.branches, ids[j]);
  }

  lemma ReadBounds(cfg: Config, actions: seq<Action>, w: WorkerId, snap: Task, ids: seq<TaskId>, j: nat, n: nat)
    requires ReadAt(cfg, actions, w, snap, ids, j, n)
    ensures n < |actions| && j < |ids|
  {
  }

  lemma PastNotReading(sys: Sys, w: WorkerId, snap: Task, ids: seq<TaskId>, j: nat)
    ensures !(IsPastRead(sys, w, snap, ids, j) && IsReading(sys, w, snap, ids, j))
  {
  }

  /** Once past a branch, the worker has seen what it has seen of it. */
  lemma SawStill(cfg: Config, actions: seq<Action>, a: Action, w: WorkerId, snap: Task, ids: seq<TaskId>, j: nat)
    requires IsPastRead(Reach(cfg, actions), w, snap, ids, j)
    requires IsPastRead(Reach(cfg, actions + [a]), w, snap, ids, j)
    ensures WasRead(cfg, actions, w, snap, ids, j) ==> WasRead(cfg, actions + [a], w, snap, ids, j)
    ensures SawConcluded(cfg, actions, w, snap, ids, j) <==> SawConcluded(cfg, actions + [a], w, snap, ids, j)
  {
    hide Reach, ReadAt;
    if WasRead(cfg, actions, w, snap, ids, j) {
      var n: nat :| ReadAt(cfg, actions, w, snap, ids, j, n);
      ReadStays(cfg, actions, a, w, snap, ids, j, n);
    }
    if SawConcluded(cfg, actions, w, snap, ids, j) {
      var n: nat :| SawAt(cfg, actions, w, snap, ids, j, n);
      ReadBounds(cfg, actions, w, snap, ids, j, n);
      ReadStays(cfg, actions, a, w, snap, ids, j, n);
      assert (actions + [a])[..n] == actions[..n];
      assert SawAt(cfg, actions + [a], w, snap, ids, j, n);
    }
    if SawConcluded(cfg, actions + [a], w, snap, ids, j) {
      var n: nat :| SawAt(cfg, actions + [a], w, snap, ids, j, n);
      ReadBounds(cfg, actions + [a], w, snap, ids, j, n);
      ReadWas(cfg, actions, a, w, snap, ids, j, n);
      PastNotReading(Reach(cfg, actions), w, snap, ids, j);
      assert (actions + [a])[..n] == actions[..n];
      assert SawAt(cfg, actions, w, snap, ids, j, n);
    }
  }

  /** A worker that only now gets past a branch reads it now, or not at all. */
  lemma SawNow(cfg: Config, actions: seq<Action>, a: Action, w: WorkerId, snap: Task, ids: seq<TaskId>, j: nat)
    requires !IsPastRead(Reach(cfg, actions), w, snap, ids, j) && j < |ids|
    requires IsPastRead(Reach(cfg, actions + [a]), w, snap, ids, j) && a.Act? && a.w == w
    ensures IsReading(Reach(cfg, actions), w, snap, ids, j) ==> WasRead(cfg, actions + [a], w, snap, ids, j)
    ensures SawConcluded(cfg, actions + [a], w, snap, ids, j)
        <==> IsReading(Reach(cfg, actions), w, snap, ids, j) && Concluded(Reach(cfg, actions).shared.branches, ids[j])
  {
    hide Reach;
    var longer, n := actions + [a], |actions|;
    assert longer[..n] == actions && longer[..n + 1] == longer;
    if IsReading(Reach(cfg, actions), w, snap, ids, j) {
      assert ReadAt(cfg, longer, w, snap, ids, j, n);
    }
    forall m: nat | ReadAt(cfg, longer, w, snap, ids, j, m)
      ensures m == n && IsReading(Reach(cfg, actions), w, snap, ids, j)
    {
      ReadWas(cfg, actions, a, w, snap, ids, j, m);
    }
    assert SawAt(cfg, longer, w, snap, ids, j, n)
        <==> ReadAt(cfg, longer, w, snap, ids, j, n) && Concluded(Reach(cfg, actions).shared.branches, ids[j]);
  }

  /** A memory stays right while the results keep it and gain nothing about it. */
  lemma RemembersStill(cfg: Config, actions: seq<Action>, a: Action, w: WorkerId, snap: Task, ids: seq<TaskId>, j: nat,
                       results: Results, results': Results)
    requires Remembers(cfg, actions, w, snap, ids, j, results)
    requires IsPastRead(Reach(cfg, actions), w, snap, ids, j)
    requires IsPastRead(Reach(cfg, actions + [a]), w, snap, ids, j)
    requires results.Keys <= results'.Keys
    requires Distinct(ids) && ids[j] in results' ==> ids[j] in results
    ensures Remembers(cfg, actions + [a], w, snap, ids, j, results')
  {
    hide Reach, SawConcluded, WasRead;
    SawStill(cfg, actions, a, w, snap, ids, j);
  }

  /** Nothing happened to the worker. */
  lemma KnowsStill(cfg: Config, actions: seq<Action>, a: Action, w: WorkerId)
    requires w in Reach(cfg, actions).workers && w in Reach(cfg, actions + [a]).workers
    requires Reach(cfg, actions + [a]).workers[w] == Reach(cfg, actions).workers[w]
    requires Knows(cfg, actions, w, Reach(cfg, actions).workers[w])
    ensures Knows(cfg, actions + [a], w, Reach(cfg, actions + [a]).workers[w])
  {
    hide Reach, Remembers;
    var pc := Reach(cfg, actions).workers[w];
    match pc {
      case ScanBranches(snap, ids, k, scan) =>
        forall j: nat | j < k ensures Remembers(cfg, actions + [a], w, snap, ids, j, scan.results) {
          RemembersInRange(cfg, actions, w, snap, ids, j, scan.results);
          RemembersStill(cfg, actions, a, w, snap, ids, j, scan.results, scan.results);
        }
      case Sweep(snap, ids, k, scan) =>
        forall j: nat | k <= j < |ids| ensures Remembers(cfg, actions + [a], w, snap, ids, j, scan.results) {
          RemembersStill(cfg, actions, a, w, snap, ids, j, scan.results, scan.results);
        }
      case _ =>
    }
  }

  lemma RemembersInRange(cfg: Config, actions: seq<Action>, w: WorkerId, snap: Task, ids: seq<TaskId>, j: nat,
                         results: Results)
    requires Remembers(cfg, actions, w, snap, ids, j, results)
    ensures j < |ids|
  {
  }

  // ── the scan reads, the sweep uses what was read ──

  /** What the scan holds after reading branch `id`. */
  predicate Gains(s: Shared, id: TaskId, results: Results, results': Results) {
    results'.Keys == results.Keys + if Concluded(s.branches, id) then {id} else {}
  }

  lemma ScanResult(s: Shared, id: TaskId, scan: Scan)
    ensures var branch := if id in s.branches then Some(s.branches[id]) else None;
            Gains(s, id, scan.results, ScanOne(id, branch, scan).results)
  {
  }

  /** Branch number `k` is read; branches it has not got to are remembered, should it stop here, as not seen. */
  lemma ReadsOne(cfg: Config, actions: seq<Action>, w: WorkerId, c: Choice, snap: Task, ids: seq<TaskId>, k: nat,
                 scan: Scan, j: nat, results': Results)
    requires w in Reach(cfg, actions).workers && k < |ids| && j < |ids|
    requires Reach(cfg, actions).workers[w] == ScanBranches(snap, ids, k, scan)
    requires IsPastRead(Reach(cfg, actions + [Act(w, c)]), w, snap, ids, j)
    requires IdsIn(scan.results, ids[..k]) && Gains(Reach(cfg, actions).shared, ids[k], scan.results, results')
    requires j < k ==> Remembers(cfg, actions, w, snap, ids, j, scan.results)
    requires Waits(cfg, snap) ==> j <= k
    ensures Remembers(cfg, actions + [Act(w, c)], w, snap, ids, j, results')
  {
    hide Reach, SawConcluded, WasRead;
    var a := Act(w, c);
    assert ids[j] in results'.Keys <==> ids[j] in results';
    assert ids[j] in scan.results.Keys <==> ids[j] in scan.results;
    assert Distinct(ids) && j != k ==> ids[j] != ids[k];
    if j < k {
      RemembersStill(cfg, actions, a, w, snap, ids, j, scan.results, results');
    } else {
      assert Distinct(ids) ==> ids[j] !in ids[..k];
      SawNow(cfg, actions, a, w, snap, ids, j);
    }
  }

  /** Where a scan that read branch `k` goes: to the next branch, or, stopping or done, on to the sweep. */
  lemma ScanGoes(cfg: Config, s: Shared, w: WorkerId, c: Choice, snap: Task, ids: seq<TaskId>, k: nat, scan: Scan)
    ensures var pc' := Step(cfg, s, w, ScanBranches(snap, ids, k, scan), c).1;
            && (pc'.ScanBranches? ==>
                  k < |ids| && pc' == ScanBranches(snap, ids, k + 1, pc'.scan)
                  && Gains(s, ids[k], scan.results, pc'.scan.results))
            && (pc'.Sweep? && k >= |ids| ==> pc' == Sweep(snap, ids, 0, scan))
            && (pc'.Sweep? && k < |ids| ==>
                  pc' == Sweep(snap, ids, 0, pc'.scan) && !Waits(cfg, snap)
                  && Gains(s, ids[k], scan.results, pc'.scan.results))
  {
    hide ScanOne, TimedOut, Gains;
    if k < |ids| { ScanResult(s, ids[k], scan); }
  }

  lemma ScanStep(cfg: Config, actions: seq<Action>, w: WorkerId, c: Choice)
    requires Registered(cfg) && Inv(cfg, Reach(cfg, actions))
    requires w in Reach(cfg, actions).workers && Reach(cfg, actions).workers[w].ScanBranches?
    requires Knows(cfg, actions, w, Reach(cfg, actions).workers[w])
    ensures Knows(cfg, actions + [Act(w, c)], w, Step(cfg, Reach(cfg, actions).shared, w, Reach(cfg, actions).workers[w], c).1)
  {
    hide Reach, Remembers, SharedOk, ScanOne, TimedOut, Gains;
    var sys, a := Reach(cfg, actions), Act(w, c);
    OneMoreAct(cfg, actions, sys, w, c);
    var pc := sys.workers[w];
    var pc' := Step(cfg, sys.shared, w, pc, c).1;
    assert WorkerOk(cfg, sys.shared, pc);
    match pc {
      case ScanBranches(snap, ids, k, scan) =>
        ScanGoes(cfg, sys.shared, w, c, snap, ids, k, scan);
        hide Step;
        if pc'.ScanBranches? {
          forall j: nat | j < k + 1 ensures Remembers(cfg, actions + [a], w, snap, ids, j, pc'.scan.results) {
            ReadsOne(cfg, actions, w, c, snap, ids, k, scan, j, pc'.scan.results);
          }
        } else if pc'.Sweep? && k < |ids| {
          forall j: nat | j < |ids| ensures Remembers(cfg, actions + [a], w, snap, ids, j, pc'.scan.results) {
            ReadsOne(cfg, actions, w, c, snap, ids, k, scan, j, pc'.scan.results);
          }
        } else if pc'.Sweep? {
          forall j: nat | j < |ids| ensures Remembers(cfg, actions + [a], w, snap, ids, j, scan.results) {
            RemembersStill(cfg, actions, a, w, snap, ids, j, scan.results, scan.results);
          }
        }
    }
  }

  lemma SweepStepKnows(cfg: Config, actions: seq<Action>, w: WorkerId, c: Choice)
    requires Registered(cfg) && Inv(cfg, Reach(cfg, actions))
    requires w in Reach(cfg, actions).workers && Reach(cfg, actions).workers[w].Sweep?
    requires Knows(cfg, actions, w, Reach(cfg, actions).workers[w])
    ensures Knows(cfg, actions + [Act(w, c)], w, Step(cfg, Reach(cfg, actions).shared, w, Reach(cfg, actions).workers[w], c).1)
  {
    hide Reach, Remembers, SharedOk, FlagOk;
    var sys, a := Reach(cfg, actions), Act(w, c);
    OneMoreAct(cfg, actions, sys, w, c);
    var pc := sys.workers[w];
    var pc' := Step(cfg, sys.shared, w, pc, c).1;
    assert WorkerOk(cfg, sys.shared, pc);
    match pc {
      case Sweep(snap, ids, k, scan) =>
        if pc'.Sweep? {
          assert pc'.snap == snap && pc'.ids == ids && pc'.next == k + 1 && k < |ids|;
          assert scan.results.Keys <= pc'.scan.results.Keys <= scan.results.Keys + {ids[k]};
          hide Step;
          forall j: nat | k + 1 <= j < |ids| ensures Remembers(cfg, actions + [a], w, snap, ids, j, pc'.scan.results) {
            RemembersStill(cfg, actions, a, w, snap, ids, j, scan.results, pc'.scan.results);
          }
        }
    }
  }

  /** No other step enters a scan in the middle or a sweep. */
  lemma OtherStep(cfg: Config, s: Shared, w: WorkerId, pc: Pc, c: Choice)
    requires !pc.ScanBranches? && !pc.Sweep?
    ensures var pc' := Step(cfg, s, w, pc, c).1; !pc'.Sweep? && (pc'.ScanBranches? ==> pc'.next == 0)
  {
    hide Recorded, Decide, MergeData, StatusFor, RecordPatch, ResultsPatch, BranchInput, CommitMove;
  }

  lemma FreshKnows(cfg: Config, actions: seq<Action>, w: WorkerId, pc: Pc)
    requires !pc.Sweep? && (pc.ScanBranches? ==> pc.next == 0)
    ensures Knows(cfg, actions, w, pc)
  {
  }

  lemma {:induction false} EveryoneKnows(cfg: Config, actions: seq<Action>)
    requires Registered(cfg)
    ensures AllKnow(cfg, actions)
    decreases |actions|
  {
    if actions != [] {
      hide Knows, Step, Inv;
      var n := |actions| - 1;
      var before, a := actions[..n], actions[n];
      EveryoneKnows(cfg, before);
      Reachable(cfg, before);
      OneMore(cfg, before, a);
      assert before + [a] == actions;
      var sys, sys' := Reach(cfg, before), Reach(cfg, actions);
      forall w | w in sys'.workers ensures Knows(cfg, actions, w, sys'.workers[w]) {
        if a.Act? && a.w == w && w in sys.workers {
          var pc := sys.workers[w];
          if pc.ScanBranches? { ScanStep(cfg, before, w, a.choice); }
          else if pc.Sweep? { SweepStepKnows(cfg, before, w, a.choice); }
          else {
            OtherStep(cfg, sys.shared, w, pc, a.choice);
            FreshKnows(cfg, actions, w, sys'.workers[w]);
          }
        } else if w in sys.workers && sys'.workers[w] == sys.workers[w] {
          KnowsStill(cfg, before, a, w);
        } else {
          FreshKnows(cfg, actions, w, sys'.workers[w]);
        }
      }
    }
  }

  // ── what a sweep does to a branch ──

  lemma SweepsAtParallel(cfg: Config, actions: seq<Action>, w: WorkerId)
    requires Registered(cfg) && w in Reach(cfg, actions).workers && Reach(cfg, actions).workers[w].Sweep?
    ensures AtParallel(cfg, Reach(cfg, actions).workers[w].snap)
  {
    hide Reach, SharedOk;
    Reachable(cfg, actions);
    assert WorkerOk(cfg, Reach(cfg, actions).shared, Reach(cfg, actions).workers[w]);
  }

  /** In every interleaving and under both strategies: the next step of a sweep touches no branch but number `k`, and
      that one only if this worker did not read it as concluded. Among distinct branches, and when the store carries the
      write out, it is failed exactly then: a branch that is Completed by now is overwritten precisely when this worker
      read it before it finished or, under `FailFast`, had stopped reading before it. */
  lemma SweepExactly(cfg: Config, actions: seq<Action>, w: WorkerId, c: Choice)
    requires Registered(cfg) && w in Reach(cfg, actions).workers && Reach(cfg, actions).workers[w].Sweep?
    requires var pc := Reach(cfg, actions).workers[w]; pc.next < |pc.ids|
    ensures var sys := Reach(cfg, actions);
            var pc := sys.workers[w];
            var id, before := pc.ids[pc.next], sys.shared.branches;
            var after := Step(cfg, sys.shared, w, pc, c).0.branches;
            var saw := SawConcluded(cfg, actions, w, pc.snap, pc.ids, pc.next);
            && (after == before || (id in before && after == before[id := before[id].(status := Failed(TIMEOUT_MESSAGE))]))
            && (saw ==> after == before)
            && (Distinct(pc.ids) && c.ok && cfg.isUuid(id) && id in before && !saw ==>
                  after == before[id := before[id].(status := Failed(TIMEOUT_MESSAGE))])
            && (Waits(cfg, pc.snap) ==> WasRead(cfg, actions, w, pc.snap, pc.ids, pc.next))
  {
    EveryoneKnows(cfg, actions);
    SweepsAtParallel(cfg, actions, w);
    var sys := Reach(cfg, actions);
    var pc := sys.workers[w];
    assert Knows(cfg, actions, w, pc);
    assert Remembers(cfg, actions, w, pc.snap, pc.ids, pc.next, pc.scan.results);
    hide Reach, SawConcluded, WasRead;
  }
}
