/** The detector of stuck tool loops: bounded windows that must judge like a detector keeping the whole trace. */
module LoopDetection {
  import opened Sequences
  import opened Wrappers

  const MAX_HISTORY: nat := 30
  const MAX_OUTPUTS: nat := 10

  datatype Call = Call(name: string, key: int)

  datatype Loop =
    | Repeated(name: string, count: nat, max: nat)
    | PingPong(first: string, second: string)
    | NoProgress

  // ── the detector that keeps everything ──

  /** The last `n` entries. */
  function Suffix<T>(s: seq<T>, n: nat): seq<T> {
    if |s| <= n then s else s[|s| - n..]
  }

  function Count(calls: seq<Call>, key: int): nat {
    if calls == [] then 0 else Count(Init(calls), key) + if Last(calls).key == key then 1 else 0
  }

  /** The newest call repeats its key too often. */
  predicate Over(calls: seq<Call>, max: nat)
    requires calls != []
  {
    Count(calls, Last(calls).key) > max
  }

  /** The calls that were not refused as repeats, all of them. */
  function Kept(calls: seq<Call>, max: nat): seq<Call> {
    if calls == [] then []
    else if Over(calls, max) then Kept(Init(calls), max)
    else Kept(Init(calls), max) + [Last(calls)]
  }

  predicate Alternates(a: Call, b: Call, c: Call, d: Call) {
    a.key == c.key && b.key == d.key && a.key != b.key
  }

  /** The whole trace ends in A, B, A, B. */
  predicate EndsAlternating(kept: seq<Call>) {
    var n := |kept|;
    n >= 4 && Alternates(kept[n - 4], kept[n - 3], kept[n - 2], kept[n - 1])
  }

  /** The judgement of the newest call from the whole trace. */
  function Judge(calls: seq<Call>, max: nat): Result<(), Loop>
    requires calls != []
  {
    var kept := Kept(calls, max);
    if Over(calls, max) then Err(Repeated(Last(calls).name, Count(calls, Last(calls).key), max))
    else if EndsAlternating(kept) then Err(PingPong(kept[|kept| - 4].name, kept[|kept| - 3].name))
    else Ok(())
  }

  /** The five newest outputs exist and are equal. */
  predicate Stuck(outputs: seq<int>) {
    |outputs| >= 5 && forall i :: |outputs| - 5 <= i < |outputs| ==> outputs[i] == Last(outputs)
  }

  // ── the detector with windows ──

  class LoopDetector {
    var callCounts: map<int, nat>
    const maxRepeats: nat
    var history: seq<Call>
    var outputHashes: seq<int>
    const hash: (string, string) -> int
    /** Every call and output since the last reset. */
    ghost var calls: seq<Call>
    ghost var outputs: seq<int>

    ghost predicate Valid()
      reads this
    {
      && (forall key :: key in callCounts ==> callCounts[key] == Count(calls, key))
      && (forall key :: key !in callCounts ==> Count(calls, key) == 0)
      && history == Suffix(Kept(calls, maxRepeats), MAX_HISTORY)
      && outputHashes == Suffix(outputs, MAX_OUTPUTS)
    }

    constructor (maxRepeats: nat, hash: (string, string) -> int)
      ensures Valid() && calls == [] && outputs == [] && this.maxRepeats == maxRepeats && this.hash == hash
    {
      this.maxRepeats, this.hash := maxRepeats, hash;
      callCounts, history, outputHashes, calls, outputs := map[], [], [], [], [];
    }

    method Record(name: string, args: string) returns (result: Result<(), Loop>)
      requires Valid()
      modifies this
      ensures Valid() && outputs == old(outputs)
      ensures maxRepeats == 0 ==> result.Ok? && calls == old(calls)
      ensures maxRepeats > 0 ==> calls == old(calls) + [Call(name, hash(name, args))]
      ensures maxRepeats > 0 ==> result == Judge(calls, maxRepeats)
    {
      if maxRepeats == 0 {
        return Ok(());
      }
      var key := hash(name, args);
      var count := (if key in callCounts then callCounts[key] else 0) + 1;
      hide Count, Kept, Suffix;
      CountPush(calls, Call(name, key));
      KeptPush(calls, Call(name, key), maxRepeats);
      callCounts := callCounts[key := count];
      calls := calls + [Call(name, key)];
      if count > maxRepeats {
        return Err(Repeated(name, count, maxRepeats));
      }
      history := PushCapped(history, Call(name, key), MAX_HISTORY, Kept(old(calls), maxRepeats));
      result := CheckAlternating(history, Kept(calls, maxRepeats));
    }

    method RecordOutput(hash: int)
      requires Valid()
      modifies this
      ensures Valid() && calls == old(calls) && outputs == old(outputs) + [hash]
    {
      outputHashes := PushCapped(outputHashes, hash, MAX_OUTPUTS, outputs);
      outputs := outputs + [hash];
    }

    method CheckProgress() returns (result: Result<(), Loop>)
      requires Valid()
      ensures result == if Stuck(outputs) then Err(NoProgress) else Ok(())
    {
      SuffixStuck(outputs, MAX_OUTPUTS);
      if |outputHashes| >= 5 {
        var n := |outputHashes|;
        var last := outputHashes[n - 1];
        var allSame := true;
        var i := n;
        while i > n - 5 && allSame
          invariant n - 5 <= i <= n
          invariant allSame ==> forall k :: i <= k < n ==> outputHashes[k] == last
          invariant !allSame ==> exists k :: n - 5 <= k < n && outputHashes[k] != last
        {
          allSame := outputHashes[i - 1] == last;
          i := i - 1;
        }
        if allSame {
          return Err(NoProgress);
        }
      }
      return Ok(());
    }

    method Reset()
      modifies this
      ensures Valid() && calls == [] && outputs == []
    {
      callCounts, history, outputHashes, calls, outputs := map[], [], [], [], [];
    }
  }

  /** The ping-pong test on the window agrees with the test on everything kept. */
  method CheckAlternating(history: seq<Call>, ghost kept: seq<Call>) returns (result: Result<(), Loop>)
    requires history == Suffix(kept, MAX_HISTORY)
    ensures result == if EndsAlternating(kept) then Err(PingPong(kept[|kept| - 4].name, kept[|kept| - 3].name)) else Ok(())
  {
    hide Suffix;
    SuffixEnd(kept, MAX_HISTORY);
    if |history| >= 4 {
      var len := |history|;
      var a1, b1, a2, b2 := history[len - 4], history[len - 3], history[len - 2], history[len - 1];
      if a1.key == a2.key && b1.key == b2.key && a1.key != b1.key {
        return Err(PingPong(a1.name, b1.name));
      }
    }
    return Ok(());
  }

  lemma CountPush(calls: seq<Call>, call: Call)
    ensures forall key :: Count(calls + [call], key) == Count(calls, key) + if call.key == key then 1 else 0
  {
  }

  lemma KeptPush(calls: seq<Call>, call: Call, max: nat)
    ensures Kept(calls + [call], max)
         == if Over(calls + [call], max) then Kept(calls, max) else Kept(calls, max) + [call]
  {
  }

  /** Popping the oldest entry of a full window and pushing the new one keeps the window the suffix of the trace. */
  method PushCapped<T>(window: seq<T>, x: T, cap: nat, ghost trace: seq<T>) returns (pushed: seq<T>)
    requires cap > 0 && window == Suffix(trace, cap)
    ensures pushed == Suffix(trace + [x], cap)
  {
    pushed := window;
    if |pushed| >= cap {
      pushed := pushed[1..];
    }
    pushed := pushed + [x];
  }

  /** A window of at least four shows the end of the trace. */
  lemma SuffixEnd<T>(s: seq<T>, n: nat)
    requires n >= 4
    ensures var w, l, m := Suffix(s, n), |Suffix(s, n)|, |s|;
            && (l >= 4 <==> m >= 4)
            && (l >= 4 && m >= 4 ==> w[l - 4] == s[m - 4] && w[l - 3] == s[m - 3] && w[l - 2] == s[m - 2] && w[l - 1] == s[m - 1])
  {
  }

  /** A window of at least five is stuck exactly when the trace is. */
  lemma SuffixStuck(s: seq<int>, n: nat)
    requires n >= 5
    ensures Stuck(Suffix(s, n)) <==> Stuck(s)
  {
  }

  // ── what an unrefused run looks like ──

  /** Every record of the run was answered Ok. */
  ghost predicate AllOk(calls: seq<Call>, max: nat) {
    forall n :: 0 < n <= |calls| ==> Judge(calls[..n], max).Ok?
  }

  function Keys(calls: seq<Call>): set<int> {
    set i | 0 <= i < |calls| :: calls[i].key
  }

  function Without(calls: seq<Call>, key: int): seq<Call> {
    if calls == [] then []
    else if Last(calls).key == key then Without(Init(calls), key)
    else Without(Init(calls), key) + [Last(calls)]
  }

  lemma {:induction false} WithoutCounts(calls: seq<Call>, key: int)
    ensures |calls| == |Without(calls, key)| + Count(calls, key)
    ensures Keys(Without(calls, key)) <= Keys(calls) - {key}
    ensures forall other :: other != key ==> Count(Without(calls, key), other) == Count(calls, other)
  {
    if calls != [] {
      WithoutCounts(Init(calls), key);
      var rest := Without(Init(calls), key);
      KeysInit(calls);
      if Last(calls).key != key {
        CountPush(rest, Last(calls));
        KeysInit(Without(calls, key));
        assert Init(rest + [Last(calls)]) == rest;
      }
    }
  }

  lemma KeysInit(calls: seq<Call>)
    requires calls != []
    ensures Keys(calls) == Keys(Init(calls)) + {Last(calls).key}
  {
  }

  lemma {:induction false} FewKeys(calls: seq<Call>, keys: set<int>, max: nat)
    requires Keys(calls) <= keys && forall key :: key in keys ==> Count(calls, key) <= max
    ensures |calls| <= |keys| * max
    decreases |keys|
  {
    hide Keys;
    if key :| key in keys {
      WithoutCounts(calls, key);
      FewKeys(Without(calls, key), keys - {key}, max);
      assert |keys| * max == (|keys| - 1) * max + max;
    } else if calls != [] {
      KeysInit(calls);
      assert false;
    }
  }

  lemma {:induction false} OkCounts(calls: seq<Call>, max: nat, key: int)
    requires AllOk(calls, max)
    ensures Count(calls, key) <= max
  {
    if calls != [] {
      assert calls[..|calls|] == calls;
      forall n | 0 < n <= |calls| - 1 ensures Init(calls)[..n] == calls[..n] {
      }
      OkCounts(Init(calls), max, key);
    }
  }

  /** A run of accepted records over `k` distinct calls has at most `k` times `max` records. */
  lemma AcceptedRunsAreShort(calls: seq<Call>, max: nat)
    requires AllOk(calls, max)
    ensures |calls| <= |Keys(calls)| * max
  {
    forall key | key in Keys(calls) ensures Count(calls, key) <= max {
      OkCounts(calls, max, key);
    }
    FewKeys(calls, Keys(calls), max);
  }

  /** Once a call is refused as a repeat, every later record of it is refused too, whatever comes between. */
  lemma {:induction false} RefusalLasts(calls: seq<Call>, more: seq<Call>, call: Call, max: nat)
    requires calls != [] && Over(calls, max) && call.key == Last(calls).key
    ensures Judge(calls + more + [call], max).Err?
  {
    var whole := calls + more + [call];
    CountGrows(calls, more, call.key);
    assert Init(whole) == calls + more;
    assert Last(whole) == call;
  }

  lemma {:induction false} CountGrows(calls: seq<Call>, more: seq<Call>, key: int)
    ensures Count(calls + more, key) >= Count(calls, key)
  {
    if more == [] {
      assert calls + more == calls;
    } else {
      CountGrows(calls, Init(more), key);
      assert Init(calls + more) == calls + Init(more);
    }
  }

  // ── the judgement, read off the whole trace ──

  /** Where the call was made. */
  function At(calls: seq<Call>, key: int): set<nat> {
    set i: nat | i < |calls| && calls[i].key == key
  }

  lemma {:induction false} CountExactly(calls: seq<Call>, key: int)
    ensures Count(calls, key) == |At(calls, key)|
  {
    if calls == [] {
      assert At(calls, key) == {};
    } else {
      var front, n := Init(calls), |calls| - 1;
      CountExactly(front, key);
      if Last(calls).key == key {
        assert At(calls, key) == At(front, key) + {n};
      } else {
        assert At(calls, key) == At(front, key);
      }
    }
  }

  /** A call is refused as a repeat exactly when it was made more than `max` times, this time included. */
  lemma RepeatExactly(calls: seq<Call>, max: nat)
    requires calls != []
    ensures var made := |At(calls, Last(calls).key)|;
            (Judge(calls, max).Err? && Judge(calls, max).error.Repeated? <==> made > max)
            && (made > max ==> Judge(calls, max) == Err(Repeated(Last(calls).name, made, max)))
  {
    CountExactly(calls, Last(calls).key);
  }

  /** Of every call the first `max` are kept, whatever comes between. */
  lemma {:induction false} KeptCounts(calls: seq<Call>, max: nat, key: int)
    ensures Count(Kept(calls, max), key) == if Count(calls, key) <= max then Count(calls, key) else max
  {
    if calls != [] {
      KeptCounts(Init(calls), max, key);
      CountPush(Kept(Init(calls), max), Last(calls));
      CountPush(Init(calls), Last(calls));
      Ends(calls);
    }
  }

  /** A trace in which nothing was refused as a repeat is kept as it is. */
  lemma {:induction false} KeptWhole(calls: seq<Call>, max: nat)
    requires forall key :: Count(calls, key) <= max
    ensures Kept(calls, max) == calls
  {
    if calls != [] {
      Ends(calls);
      CountPush(Init(calls), Last(calls));
      KeptWhole(Init(calls), max);
    }
  }

  /** The four newest kept calls are two different calls in turn, first one of this name and then one of that. */
  predicate EndsInTurns(kept: seq<Call>, first: string, second: string) {
    var n := |kept|;
    && n >= 4 && kept[n - 4].name == first && kept[n - 3].name == second
    && kept[n - 2].key == kept[n - 4].key && kept[n - 1].key == kept[n - 3].key && kept[n - 3].key != kept[n - 4].key
  }

  /** A record is answered as ping-pong exactly when it is no repeat and the four newest kept calls are two different calls
      in turn; the names are those of the first two. */
  lemma PingPongExactly(calls: seq<Call>, max: nat, first: string, second: string)
    requires calls != []
    ensures Judge(calls, max) == Err(PingPong(first, second)) <==>
              |At(calls, Last(calls).key)| <= max && EndsInTurns(Kept(calls, max), first, second)
  {
    hide Kept, Count;
    CountExactly(calls, Last(calls).key);
  }

  /** The same call four times in a row is no ping-pong. */
  lemma FourEqualAreNone(calls: seq<Call>, max: nat, key: int)
    requires |Kept(calls, max)| >= 4 && calls != []
    requires forall i :: |Kept(calls, max)| - 4 <= i < |Kept(calls, max)| ==> Kept(calls, max)[i].key == key
    ensures Judge(calls, max).Err? ==> !Judge(calls, max).error.PingPong?
  {
    hide Kept, Count;
    assert !EndsAlternating(Kept(calls, max));
  }

  /** No progress means that the five newest outputs are one and the same. */
  lemma StuckExactly(outputs: seq<int>)
    ensures Stuck(outputs) <==> |outputs| >= 5 && exists x :: outputs[|outputs| - 5..] == [x, x, x, x, x]
  {
    if |outputs| >= 5 {
      var n, x := |outputs|, Last(outputs);
      var tail := outputs[n - 5..];
      assert tail == [outputs[n - 5], outputs[n - 4], outputs[n - 3], outputs[n - 2], outputs[n - 1]];
      if Stuck(outputs) { assert tail == [x, x, x, x, x]; }
      forall y | tail == [y, y, y, y, y] ensures Stuck(outputs) {
        assert forall i :: n - 5 <= i < n ==> outputs[i] == tail[i - (n - 5)];
      }
    }
  }
}
