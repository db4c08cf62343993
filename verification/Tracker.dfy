/** The sliding-window rate tracker and the two rate limits of the security guard. */
module Tracker {
  import opened Sequences
  import opened Wrappers

  /** Sixty seconds, in nanoseconds. */
  const WINDOW: int := 60_000_000_000

  const U32: int := 0x1_0000_0000

  /** `len as u32`. */
  function AsU32(n: nat): nat {
    n % U32
  }

  predicate Sorted(log: seq<int>) {
    forall i, j :: 0 <= i < j < |log| ==> log[i] <= log[j]
  }

  /** The times not before `lo`, in order. */
  function AtLeast(log: seq<int>, lo: int): seq<int> {
    if log == [] then []
    else if Last(log) >= lo then AtLeast(Init(log), lo) + [Last(log)]
    else AtLeast(Init(log), lo)
  }

  lemma AtLeastPush(log: seq<int>, t: int, lo: int)
    ensures AtLeast(log + [t], lo) == if t >= lo then AtLeast(log, lo) + [t] else AtLeast(log, lo)
  {
  }

  lemma {:induction false} AtLeastTwice(log: seq<int>, lo: int, hi: int)
    requires lo <= hi
    ensures AtLeast(AtLeast(log, lo), hi) == AtLeast(log, hi)
  {
    if log != [] {
      AtLeastTwice(Init(log), lo, hi);
      if Last(log) >= lo {
        AtLeastPush(AtLeast(Init(log), lo), Last(log), hi);
      }
    }
  }

  lemma {:induction false} AtLeastAll(log: seq<int>, lo: int)
    requires forall i :: 0 <= i < |log| ==> log[i] >= lo
    ensures AtLeast(log, lo) == log
  {
    if log != [] {
      AtLeastAll(Init(log), lo);
      Ends(log);
    }
  }

  lemma {:induction false} AtLeastFront(log: seq<int>, lo: int)
    requires log != [] && log[0] < lo
    ensures AtLeast(log, lo) == AtLeast(log[1..], lo)
  {
    if |log| > 1 {
      AtLeastFront(Init(log), lo);
      assert Init(log)[1..] == Init(log[1..]);
    }
  }

  lemma {:induction false} AtLeastBelow(log: seq<int>, lo: int, top: int)
    requires forall i :: 0 <= i < |log| ==> log[i] <= top
    ensures forall i :: 0 <= i < |AtLeast(log, lo)| ==> AtLeast(log, lo)[i] <= top
  {
    if log != [] {
      AtLeastBelow(Init(log), lo, top);
    }
  }

  lemma {:induction false} AtLeastSorted(log: seq<int>, lo: int)
    requires Sorted(log)
    ensures Sorted(AtLeast(log, lo))
  {
    if log != [] {
      AtLeastSorted(Init(log), lo);
      AtLeastBelow(Init(log), lo, Last(log));
    }
  }

  lemma {:induction false} AtLeastShrinks(log: seq<int>, lo: int, hi: int)
    requires lo <= hi
    ensures |AtLeast(log, hi)| <= |AtLeast(log, lo)|
  {
    if log != [] {
      AtLeastShrinks(Init(log), lo, hi);
    }
  }

  /** How many times lie in the closed interval. */
  function CountIn(log: seq<int>, lo: int, hi: int): nat {
    if log == [] then 0 else CountIn(Init(log), lo, hi) + if lo <= Last(log) <= hi then 1 else 0
  }

  lemma CountPush(log: seq<int>, t: int, lo: int, hi: int)
    ensures CountIn(log + [t], lo, hi) == CountIn(log, lo, hi) + if lo <= t <= hi then 1 else 0
  {
  }

  lemma {:induction false} CountAtLeast(log: seq<int>, lo: int, hi: int)
    ensures CountIn(log, lo, hi) <= |AtLeast(log, lo)|
  {
    if log != [] {
      CountAtLeast(Init(log), lo, hi);
    }
  }

  // ── the tracker ──

  class ActionTracker {
    var calls: seq<int>
    var highRiskCalls: seq<int>
    /** Everything ever recorded, and the time of the last operation on each deque. */
    ghost var log: seq<int>
    ghost var highLog: seq<int>
    ghost var seen: int
    ghost var highSeen: int

    /** Each deque is exactly the recorded times of the window that ends at the last operation. */
    ghost predicate Valid()
      reads this
    {
      Holds(calls, log, seen) && Holds(highRiskCalls, highLog, highSeen)
    }

    constructor (now: int)
      ensures Valid() && log == [] && highLog == [] && seen == now && highSeen == now
    {
      calls, highRiskCalls := [], [];
      log, highLog, seen, highSeen := [], [], now, now;
    }

    method RecordCall(now: int) returns (count: nat)
      requires Valid() && seen <= now
      modifies this
      ensures Valid() && log == old(log) + [now] && seen == now
      ensures highLog == old(highLog) && highSeen == old(highSeen)
      ensures count == AsU32(|AtLeast(log, now - WINDOW)|)
    {
      calls := Expire(calls, now - WINDOW, log, seen);
      calls := calls + [now];
      AtLeastPush(log, now, now - WINDOW);
      log, seen := log + [now], now;
      count := AsU32(|calls|);
    }

    method RecordHighRiskCall(now: int) returns (count: nat)
      requires Valid() && highSeen <= now
      modifies this
      ensures Valid() && highLog == old(highLog) + [now] && highSeen == now
      ensures log == old(log) && seen == old(seen)
      ensures count == AsU32(|AtLeast(highLog, now - WINDOW)|)
    {
      highRiskCalls := Expire(highRiskCalls, now - WINDOW, highLog, highSeen);
      highRiskCalls := highRiskCalls + [now];
      AtLeastPush(highLog, now, now - WINDOW);
      highLog, highSeen := highLog + [now], now;
      count := AsU32(|highRiskCalls|);
    }

    method CurrentCount(now: int) returns (count: nat)
      requires Valid() && seen <= now
      modifies this
      ensures Valid() && log == old(log) && seen == now
      ensures highLog == old(highLog) && highSeen == old(highSeen)
      ensures count == AsU32(|AtLeast(log, now - WINDOW)|)
    {
      calls := Expire(calls, now - WINDOW, log, seen);
      seen := now;
      count := AsU32(|calls|);
    }

    method CurrentHighRiskCount(now: int) returns (count: nat)
      requires Valid() && highSeen <= now
      modifies this
      ensures Valid() && highLog == old(highLog) && highSeen == now
      ensures log == old(log) && seen == old(seen)
      ensures count == AsU32(|AtLeast(highLog, now - WINDOW)|)
    {
      highRiskCalls := Expire(highRiskCalls, now - WINDOW, highLog, highSeen);
      highSeen := now;
      count := AsU32(|highRiskCalls|);
    }
  }

  ghost predicate Holds(deque: seq<int>, log: seq<int>, seen: int) {
    && Sorted(log) && (forall i :: 0 <= i < |log| ==> log[i] <= seen)
    && deque == AtLeast(log, seen - WINDOW)
  }

  /** The pop-front loop every operation starts with. */
  method Expire(deque: seq<int>, cutoff: int, ghost log: seq<int>, ghost seen: int) returns (kept: seq<int>)
    requires Holds(deque, log, seen) && seen - WINDOW <= cutoff
    ensures kept == AtLeast(log, cutoff)
  {
    AtLeastTwice(log, seen - WINDOW, cutoff);
    AtLeastSorted(log, seen - WINDOW);
    kept := deque;
    while kept != [] && kept[0] < cutoff
      invariant Sorted(kept) && AtLeast(kept, cutoff) == AtLeast(log, cutoff)
    {
      AtLeastFront(kept, cutoff);
      kept := kept[1..];
    }
    AtLeastAll(kept, cutoff);
  }

  // ── the limits ──

  /** The newest entry of `log` is let through by a limit of `max` per window. */
  predicate Admits(log: seq<int>, max: nat)
    requires log != []
  {
    AsU32(|AtLeast(log, Last(log) - WINDOW)|) <= max
  }

  /** The recorded times that were let through. */
  function Passing(log: seq<int>, max: nat): seq<int> {
    if log == [] then []
    else if Admits(log, max) then Passing(Init(log), max) + [Last(log)]
    else Passing(Init(log), max)
  }

  /** Every count fits in 32 bits. */
  ghost predicate Fits(log: seq<int>) {
    forall k :: 0 < k <= |log| ==> |AtLeast(log[..k], log[k - 1] - WINDOW)| < U32
  }

  lemma FitsInit(log: seq<int>)
    requires log != [] && Fits(log)
    ensures Fits(Init(log)) && |AtLeast(log, Last(log) - WINDOW)| < U32
  {
    hide AtLeast;
    var n := |log|;
    assert log[..n] == log;
    assert forall k :: 0 < k <= n - 1 ==> Init(log)[..k] == log[..k];
  }

  lemma {:induction false} PassingIsPart(log: seq<int>, max: nat, lo: int, hi: int)
    ensures CountIn(Passing(log, max), lo, hi) <= CountIn(log, lo, hi)
  {
    if log != [] {
      PassingIsPart(Init(log), max, lo, hi);
      if Admits(log, max) {
        CountPush(Passing(Init(log), max), Last(log), lo, hi);
      }
    }
  }

  /** In any closed window, at most `max` calls are let through. */
  lemma {:induction false} WindowBound(log: seq<int>, max: nat, lo: int)
    requires Sorted(log) && Fits(log)
    ensures CountIn(Passing(log, max), lo, lo + WINDOW) <= max
  {
    hide AtLeast, Fits;
    if log != [] {
      var last := Last(log);
      FitsInit(log);
      WindowBound(Init(log), max, lo);
      if Admits(log, max) {
        CountPush(Passing(Init(log), max), last, lo, lo + WINDOW);
        if lo <= last <= lo + WINDOW {
          PassingIsPart(log, max, lo, lo + WINDOW);
          CountAtLeast(log, lo, lo + WINDOW);
          AtLeastShrinks(log, last - WINDOW, lo);
        }
      }
    }
  }

  function Zeros(n: nat): (r: seq<int>)
    ensures |r| == n && forall i :: 0 <= i < n ==> r[i] == 0
  {
    if n == 0 then [] else Zeros(n - 1) + [0]
  }

  lemma PassingStep(log: seq<int>, max: nat)
    requires log != []
    ensures Passing(log, max)
         == if Admits(log, max) then Passing(Init(log), max) + [Last(log)] else Passing(Init(log), max)
  {
    hide Admits;
  }

  lemma ZerosAdmits(n: nat, max: nat)
    requires 0 < n < U32
    ensures Admits(Zeros(n), max) <==> n <= max
  {
    hide AtLeast, Zeros;
    AtLeastAll(Zeros(n), -WINDOW);
  }

  lemma {:induction false} ZerosPassing(n: nat, max: nat)
    requires n < U32
    ensures CountIn(Passing(Zeros(n), max), 0, WINDOW) == if n <= max then n else max
  {
    hide AtLeast, Zeros, Admits;
    if n == 0 {
      assert Zeros(0) == [];
    } else {
      ZerosPassing(n - 1, max);
      UnfoldZeros(n);
      ZerosAdmits(n, max);
      PassingStep(Zeros(n), max);
      hide Passing, CountIn;
      CountPush(Passing(Zeros(n - 1), max), 0, 0, WINDOW);
    }
  }

  /** The bound needs the counts to fit: the 2^32nd call of one instant is counted as none and let through. */
  lemma WrapAdmits(max: nat)
    requires max < U32
    ensures Sorted(Zeros(U32)) && CountIn(Passing(Zeros(U32), max), 0, WINDOW) > max
  {
    hide Zeros, AtLeast;
    UnfoldZeros(U32);
    ZerosPassing(U32 - 1, max);
    AtLeastAll(Zeros(U32), -WINDOW);
    CountPush(Passing(Zeros(U32 - 1), max), 0, 0, WINDOW);
  }

  lemma UnfoldZeros(n: nat)
    requires n > 0
    ensures Zeros(n) != [] && Init(Zeros(n)) == Zeros(n - 1)
  {
  }

  // ── the guard ──

  datatype RateLimited = TotalCalls(current: nat) | HighRiskCalls(current: nat)

  class SecurityGuard {
    const tracker: ActionTracker
    const maxCalls: nat
    const maxHighRisk: nat
    /** Record times of the calls that passed the total limit, and of the high-risk calls that passed theirs. */
    ghost var passed: seq<int>
    ghost var highPassed: seq<int>

    ghost predicate Valid()
      reads this, tracker
    {
      && tracker.Valid()
      && passed == Passing(tracker.log, maxCalls)
      && highPassed == Passing(tracker.highLog, maxHighRisk)
    }

    constructor (maxCalls: nat, maxHighRisk: nat, now: int)
      ensures Valid() && fresh(tracker)
      ensures this.maxCalls == maxCalls && this.maxHighRisk == maxHighRisk && passed == [] && highPassed == []
    {
      tracker := new ActionTracker(now);
      this.maxCalls, this.maxHighRisk := maxCalls, maxHighRisk;
      passed, highPassed := [], [];
    }

    /** The total step: recorded first, then compared. */
    method CheckTotal(now: int) returns (result: Result<(), RateLimited>)
      requires Valid() && tracker.seen <= now
      modifies this, tracker
      ensures Valid() && tracker.seen == now && tracker.log == old(tracker.log) + [now]
      ensures tracker.highLog == old(tracker.highLog) && tracker.highSeen == old(tracker.highSeen)
      ensures highPassed == old(highPassed)
      ensures result.Ok? <==> Admits(tracker.log, maxCalls)
      ensures result.Err? ==> result.error.TotalCalls?
      ensures passed == if result.Ok? then old(passed) + [now] else old(passed)
    {
      hide AsU32, AtLeast, Holds;
      var total := tracker.RecordCall(now);
      assert Init(tracker.log) == old(tracker.log) && Last(tracker.log) == now;
      if total > maxCalls {
        return Err(TotalCalls(total));
      }
      passed := passed + [now];
      return Ok(());
    }

    /** The high-risk step. */
    method CheckHighRisk(now: int) returns (result: Result<(), RateLimited>)
      requires Valid() && tracker.highSeen <= now
      modifies this, tracker
      ensures Valid() && tracker.highSeen == now && tracker.highLog == old(tracker.highLog) + [now]
      ensures tracker.log == old(tracker.log) && tracker.seen == old(tracker.seen)
      ensures passed == old(passed)
      ensures result.Ok? <==> Admits(tracker.highLog, maxHighRisk)
      ensures result.Err? ==> result.error.HighRiskCalls?
      ensures highPassed == if result.Ok? then old(highPassed) + [now] else old(highPassed)
    {
      hide AsU32, AtLeast, Holds;
      var count := tracker.RecordHighRiskCall(now);
      assert Init(tracker.highLog) == old(tracker.highLog) && Last(tracker.highLog) == now;
      if count > maxHighRisk {
        return Err(HighRiskCalls(count));
      }
      highPassed := highPassed + [now];
      return Ok(());
    }

    /** Both steps in order: the high-risk count is touched only by a high-risk call that got past the total limit,
        and a refused call has been recorded too. Each step is one critical section of the tracker, so other calls
        may come between them; `later` is when the second reads the clock. */
    method CheckRates(high: bool, now: int, later: int) returns (result: Result<(), RateLimited>)
      requires Valid() && tracker.seen <= now && tracker.highSeen <= later
      modifies this, tracker
      ensures Valid() && tracker.log == old(tracker.log) + [now]
      ensures var total := Admits(tracker.log, maxCalls);
              && passed == (if total then old(passed) + [now] else old(passed))
              && tracker.highLog == (if total && high then old(tracker.highLog) + [later] else old(tracker.highLog))
              && (result.Ok? <==> total && (high ==> Admits(tracker.highLog, maxHighRisk)))
              && (result.Err? ==> (result.error.TotalCalls? <==> !total))
      ensures highPassed == if high && result.Ok? then old(highPassed) + [later] else old(highPassed)
    {
      hide Admits, Holds, Passing;
      result := CheckTotal(now);
      if result.Ok? && high {
        result := CheckHighRisk(later);
      }
    }
  }

  /** Over every run of the guard, both limits hold in every closed sixty-second window. */
  lemma LimitsHold(guard: SecurityGuard, lo: int)
    requires guard.Valid() && Fits(guard.tracker.log) && Fits(guard.tracker.highLog)
    ensures CountIn(guard.passed, lo, lo + WINDOW) <= guard.maxCalls
    ensures CountIn(guard.highPassed, lo, lo + WINDOW) <= guard.maxHighRisk
  {
    WindowBound(guard.tracker.log, guard.maxCalls, lo);
    WindowBound(guard.tracker.highLog, guard.maxHighRisk, lo);
  }

  // ── counts, apart from how they are kept ──

  /** Where the log holds times of the closed interval. */
  function In(log: seq<int>, lo: int, hi: int): set<nat> {
    set i: nat | i < |log| && lo <= log[i] <= hi
  }

  lemma {:induction false} CountExactly(log: seq<int>, lo: int, hi: int)
    ensures CountIn(log, lo, hi) == |In(log, lo, hi)|
  {
    if log == [] {
      assert In(log, lo, hi) == {};
    } else {
      var front, n := Init(log), |log| - 1;
      CountExactly(front, lo, hi);
      if lo <= Last(log) <= hi {
        assert In(log, lo, hi) == In(front, lo, hi) + {n};
      } else {
        assert In(log, lo, hi) == In(front, lo, hi);
      }
    }
  }

  lemma {:induction false} AtLeastCounts(log: seq<int>, lo: int, hi: int)
    requires forall i :: 0 <= i < |log| ==> log[i] <= hi
    ensures |AtLeast(log, lo)| == |In(log, lo, hi)|
  {
    if log == [] {
      assert In(log, lo, hi) == {};
    } else {
      var front, n := Init(log), |log| - 1;
      AtLeastCounts(front, lo, hi);
      if lo <= Last(log) {
        assert In(log, lo, hi) == In(front, lo, hi) + {n};
      } else {
        assert In(log, lo, hi) == In(front, lo, hi);
      }
    }
  }

  /** A call is let through exactly when the calls of the sixty seconds that end with it, itself included, are at most the
      limit, as far as 32 bits can tell. */
  lemma AdmitsExactly(log: seq<int>, max: nat)
    requires Sorted(log) && log != []
    ensures Admits(log, max) <==> |In(log, Last(log) - 60_000_000_000, Last(log))| % 0x1_0000_0000 <= max
  {
    AtLeastCounts(log, Last(log) - WINDOW, Last(log));
  }
}
