/** Maximal Marginal Relevance: greedy reranking of search results, over real scores. */
module Mmr {
  import opened Text
  import opened TextLaws

  datatype SearchResult = SearchResult(id: int, content: string, score: real)

  // ── similarity ──

  function Tokenize(text: string): set<string> {
    var words := Words(text);
    set i | 0 <= i < |words| :: words[i]
  }

  function Jaccard(a: set<string>, b: set<string>): real {
    if a == {} && b == {} then 1.0
    else if |a + b| == 0 then 0.0
    else |a * b| as real / |a + b| as real
  }

  lemma RatioRange(x: nat, y: nat)
    requires x <= y && y > 0
    ensures 0.0 <= x as real / y as real <= 1.0
    ensures x as real / y as real == 1.0 <==> x == y
    ensures x as real / y as real == 0.0 <==> x == 0
  {
  }

  lemma SubsetSize(a: set<string>, b: set<string>)
    requires a <= b
    ensures |a| <= |b| && (|a| == |b| ==> a == b)
  {
    assert b == a + (b - a);
    assert |b| == |a| + |b - a|;
    if |a| == |b| { assert b - a == {}; }
  }

  /** Similarity is symmetric, lies between 0 and 1, is 1 exactly for equal token sets and 0 exactly for disjoint
      ones, two empty sets counting as equal. */
  lemma JaccardExactly(a: set<string>, b: set<string>)
    ensures 0.0 <= Jaccard(a, b) <= 1.0 && Jaccard(a, b) == Jaccard(b, a)
    ensures Jaccard(a, b) == 1.0 <==> a == b
    ensures Jaccard(a, b) == 0.0 <==> a !! b && a + b != {}
  {
    assert a * b == b * a && a + b == b + a;
    if a + b != {} {
      SubsetSize(a * b, a + b);
      RatioRange(|a * b|, |a + b|);
      assert a * b == a + b <==> a == b by {
        if a * b == a + b {
          assert forall x :: x in a ==> x in a + b;
          assert forall x :: x in b ==> x in a + b;
        }
      }
    }
  }

  /** The value of the similarity: the share of the common tokens among all. */
  lemma JaccardRatio(a: set<string>, b: set<string>)
    requires a + b != {}
    ensures Jaccard(a, b) * |a + b| as real == |a * b| as real
  {
    assert |a + b| != 0;
  }

  // ── relevance ──

  function MaxScore(results: seq<SearchResult>): (r: real)
    requires results != []
    ensures forall i :: 0 <= i < |results| ==> results[i].score <= r
  {
    if |results| == 1 then results[0].score
    else
      var rest := MaxScore(results[1..]);
      if results[0].score > rest then results[0].score else rest
  }

  function MinScore(results: seq<SearchResult>): (r: real)
    requires results != []
    ensures forall i :: 0 <= i < |results| ==> r <= results[i].score
  {
    if |results| == 1 then results[0].score
    else
      var rest := MinScore(results[1..]);
      if results[0].score < rest then results[0].score else rest
  }

  function ScoreRange(results: seq<SearchResult>): (r: real)
    requires results != []
    ensures r > 0.0
  {
    var range := MaxScore(results) - MinScore(results);
    if range > 0.000001 then range else 0.000001
  }

  function Relevance(results: seq<SearchResult>, i: nat): real
    requires i < |results|
  {
    (results[i].score - MinScore(results)) / ScoreRange(results)
  }

  /** Normalising keeps the order of scores. */
  lemma RelevanceOrder(results: seq<SearchResult>, i: nat, j: nat)
    requires i < |results| && j < |results|
    ensures Relevance(results, i) <= Relevance(results, j) <==> results[i].score <= results[j].score
  {
    hide MinScore, ScoreRange;
    DivideOrder(results[i].score - MinScore(results), results[j].score - MinScore(results), ScoreRange(results));
  }

  lemma DivideOrder(x: real, y: real, r: real)
    requires r > 0.0
    ensures x / r <= y / r <==> x <= y
  {
  }

  // ── the greedy choice ──

  function Similarity(results: seq<SearchResult>, i: nat, j: nat): real
    requires i < |results| && j < |results|
  {
    Jaccard(Tokenize(results[i].content), Tokenize(results[j].content))
  }

  /** The largest similarity of `c` to a chosen result, 0 when none is chosen. */
  function MaxSim(results: seq<SearchResult>, chosen: seq<nat>, c: nat): real
    requires c < |results| && forall k :: 0 <= k < |chosen| ==> chosen[k] < |results|
  {
    if chosen == [] then 0.0
    else
      var m := |chosen| - 1;
      Larger(MaxSim(results, chosen[..m], c), Similarity(results, c, chosen[m]))
  }

  function Larger(x: real, y: real): real {
    if y > x then y else x
  }

  /** `MaxSim` bounds every similarity to a chosen result and is one of them, or 0. */
  lemma {:induction false} MaxSimExactly(results: seq<SearchResult>, chosen: seq<nat>, c: nat)
    requires c < |results| && forall k :: 0 <= k < |chosen| ==> chosen[k] < |results|
    ensures MaxSim(results, chosen, c) >= 0.0
    ensures forall k :: 0 <= k < |chosen| ==> MaxSim(results, chosen, c) >= Similarity(results, c, chosen[k])
    ensures MaxSim(results, chosen, c) == 0.0
         || exists k :: 0 <= k < |chosen| && MaxSim(results, chosen, c) == Similarity(results, c, chosen[k])
  {
    hide Similarity;
    if chosen != [] {
      var m := |chosen| - 1;
      MaxSimExactly(results, chosen[..m], c);
      assert forall k :: 0 <= k < m ==> chosen[..m][k] == chosen[k];
    }
  }

  function Value(results: seq<SearchResult>, lambda: real, chosen: seq<nat>, c: nat): real
    requires c < |results| && forall k :: 0 <= k < |chosen| ==> chosen[k] < |results|
  {
    lambda * Relevance(results, c) - (1.0 - lambda) * MaxSim(results, chosen, c)
  }

  ghost predicate Indices(chosen: seq<nat>, n: nat) {
    forall k :: 0 <= k < |chosen| ==> chosen[k] < n
  }

  /** `pick` comes next: the last of the highest scored results at first, afterwards the first of those with the
      largest value among all results not yet chosen. */
  ghost predicate Picks(results: seq<SearchResult>, lambda: real, chosen: seq<nat>, pick: nat)
    requires Indices(chosen, |results|)
  {
    && pick < |results| && pick !in chosen
    && if chosen == [] then
         forall i: nat :: i < |results| ==>
           results[i].score <= results[pick].score && (i > pick ==> results[i].score < results[pick].score)
       else
         forall i: nat :: i < |results| && i !in chosen ==>
           && Value(results, lambda, chosen, i) <= Value(results, lambda, chosen, pick)
           && (i < pick ==> Value(results, lambda, chosen, i) < Value(results, lambda, chosen, pick))
  }

  /** `order` lists results so that each is the greedy pick after the ones before it. */
  ghost predicate Greedy(results: seq<SearchResult>, lambda: real, order: seq<nat>) {
    Indices(order, |results|) && forall k :: 0 <= k < |order| ==> Picks(results, lambda, order[..k], order[k])
  }

  /** The greedy order is unique: the code has no freedom left. */
  lemma {:induction false} GreedyUnique(results: seq<SearchResult>, lambda: real, a: seq<nat>, b: seq<nat>, k: nat)
    requires Greedy(results, lambda, a) && Greedy(results, lambda, b) && k <= |a| && k <= |b|
    ensures a[..k] == b[..k]
  {
    hide Value;
    if k > 0 {
      GreedyUnique(results, lambda, a, b, k - 1);
      assert Picks(results, lambda, a[..k - 1], a[k - 1]) && Picks(results, lambda, b[..k - 1], b[k - 1]);
      assert a[..k] == a[..k - 1] + [a[k - 1]] && b[..k] == b[..k - 1] + [b[k - 1]];
    }
  }

  /** With `lambda` 1 the greedy order never increases the score. */
  lemma PureRelevance(results: seq<SearchResult>, order: seq<nat>, k: nat, l: nat)
    requires Greedy(results, 1.0, order) && k < l < |order|
    ensures results[order[k]].score >= results[order[l]].score
  {
    hide Relevance, MaxSim;
    assert Picks(results, 1.0, order[..k], order[k]) && Picks(results, 1.0, order[..l], order[l]);
    var p, q := order[k], order[l];
    assert order[..l] == order[..k] + order[k..l];
    assert q !in order[..k];
    RelevanceOrder(results, q, p);
  }

  /** The first pick maximises the value too, exactly when `lambda` is not negative or all scores are equal. */
  lemma FirstPickMaximal(results: seq<SearchResult>, lambda: real, first: nat)
    requires Picks(results, lambda, [], first)
    ensures (forall i: nat :: i < |results| ==>
               Value(results, lambda, [], i) <= Value(results, lambda, [], first))
        <==> lambda >= 0.0 || forall i: nat :: i < |results| ==> results[i].score == results[first].score
  {
    forall i: nat | i < |results|
      ensures Value(results, lambda, [], i) <= Value(results, lambda, [], first)
          <==> lambda >= 0.0 || results[i].score == results[first].score
    {
      hide Relevance;
      RelevanceOrder(results, i, first);
      RelevanceOrder(results, first, i);
      ScaleOrder(lambda, Relevance(results, i), Relevance(results, first));
    }
  }

  lemma ScaleOrder(lambda: real, x: real, y: real)
    requires x <= y
    ensures lambda * x <= lambda * y <==> lambda >= 0.0 || x == y
  {
  }

  // ── what the greedy choice weighs ──

  /** `r` bounds the scores from below and is one of them. */
  ghost predicate IsLeast(results: seq<SearchResult>, r: real) {
    (forall i :: 0 <= i < |results| ==> r <= results[i].score) && exists i :: 0 <= i < |results| && results[i].score == r
  }

  ghost predicate IsMost(results: seq<SearchResult>, r: real) {
    (forall i :: 0 <= i < |results| ==> results[i].score <= r) && exists i :: 0 <= i < |results| && results[i].score == r
  }

  /** `words` are the words of the text, split at white space. */
  ghost predicate AreWords(text: string, words: set<string>) {
    forall w :: w in words <==> exists i: nat, j: nat :: WordAt(text, w, i, j)
  }

  /** Two texts share the part `sim` of their words, all of them when neither has any. */
  ghost predicate Share(x: string, y: string, sim: real) {
    exists a, b :: AreWords(x, a) && AreWords(y, b)
      && if a + b == {} then sim == 1.0 else sim * |a + b| as real == |a * b| as real
  }

  /** `sim` is the largest share of words that `c` has in common with one of the chosen. */
  ghost predicate IsClosest(results: seq<SearchResult>, chosen: seq<nat>, c: nat, sim: real)
    requires c < |results| && Indices(chosen, |results|)
  {
    && (forall k, other: real :: 0 <= k < |chosen| && Share(results[c].content, results[chosen[k]].content, other)
          ==> other <= sim)
    && exists k :: 0 <= k < |chosen| && Share(results[c].content, results[chosen[k]].content, sim)
  }

  lemma {:induction false} MinIsLeast(results: seq<SearchResult>, r: real)
    requires results != []
    ensures IsLeast(results, r) <==> MinScore(results) == r
  {
    MinAttained(results);
  }

  lemma {:induction false} MinAttained(results: seq<SearchResult>)
    requires results != []
    ensures exists i :: 0 <= i < |results| && results[i].score == MinScore(results)
    ensures exists i :: 0 <= i < |results| && results[i].score == MaxScore(results)
  {
    if |results| == 1 {
      assert results[0].score == MinScore(results);
    } else {
      MinAttained(results[1..]);
      var i :| 0 <= i < |results[1..]| && results[1..][i].score == MinScore(results[1..]);
      var j :| 0 <= j < |results[1..]| && results[1..][j].score == MaxScore(results[1..]);
      assert results[i + 1].score == MinScore(results[1..]) && results[j + 1].score == MaxScore(results[1..]);
      assert results[0].score == MinScore(results) || results[i + 1].score == MinScore(results);
      assert results[0].score == MaxScore(results) || results[j + 1].score == MaxScore(results);
    }
  }

  lemma MaxIsMost(results: seq<SearchResult>, r: real)
    requires results != []
    ensures IsMost(results, r) <==> MaxScore(results) == r
  {
    MinAttained(results);
  }

  lemma TokensAreWords(text: string, words: set<string>)
    ensures AreWords(text, words) <==> words == Tokenize(text)
  {
    forall w ensures w in Tokenize(text) <==> exists i: nat, j: nat :: WordAt(text, w, i, j) {
      WordsExactly(text, w);
      TokensOf(text, w);
    }
    hide Tokenize;
  }

  lemma TokensOf(text: string, w: string)
    ensures w in Tokenize(text) <==> w in Words(text)
  {
    hide Words;
    var words := Words(text);
    if w in words {
      var i :| 0 <= i < |words| && words[i] == w;
    }
  }

  lemma ShareOfTokens(x: string, y: string, sim: real)
    ensures Share(x, y, sim) <==>
              var a, b := Tokenize(x), Tokenize(y);
              if a + b == {} then sim == 1.0 else sim * |a + b| as real == |a * b| as real
  {
    hide Tokenize, AreWords;
    TokensAreWords(x, Tokenize(x));
    TokensAreWords(y, Tokenize(y));
    forall a, b | AreWords(x, a) && AreWords(y, b) ensures a == Tokenize(x) && b == Tokenize(y) {
      TokensAreWords(x, a);
      TokensAreWords(y, b);
    }
  }

  lemma ShareExactly(results: seq<SearchResult>, i: nat, j: nat, sim: real)
    requires i < |results| && j < |results|
    ensures Share(results[i].content, results[j].content, sim) <==> sim == Similarity(results, i, j)
  {
    hide Tokenize, Share, Jaccard;
    var x, y := results[i].content, results[j].content;
    ShareOfTokens(x, y, sim);
    var a, b := Tokenize(x), Tokenize(y);
    if a + b == {} {
      assert a == {} && b == {};
      BothEmpty();
    } else {
      JaccardRatio(a, b);
      assert |a + b| > 0;
      SameRatio(sim, Jaccard(a, b), |a + b| as real);
    }
  }

  lemma BothEmpty()
    ensures Jaccard({}, {}) == 1.0
  {
  }

  lemma SameRatio(x: real, y: real, d: real)
    requires d > 0.0
    ensures x * d == y * d <==> x == y
  {
  }

  /** There is always exactly one such share. */
  lemma ClosestIsMaxSim(results: seq<SearchResult>, chosen: seq<nat>, c: nat, sim: real)
    requires c < |results| && Indices(chosen, |results|) && chosen != []
    ensures IsClosest(results, chosen, c, sim) <==> sim == MaxSim(results, chosen, c)
  {
    hide Share, Similarity, MaxSim;
    MaxSimExactly(results, chosen, c);
    forall k, x: real | 0 <= k < |chosen|
      ensures Share(results[c].content, results[chosen[k]].content, x) <==> x == Similarity(results, c, chosen[k])
    {
      ShareExactly(results, c, chosen[k], x);
    }
    forall k | 0 <= k < |chosen| ensures Similarity(results, c, chosen[k]) >= 0.0 {
      SimilarityRange(results, c, chosen[k]);
    }
    assert Similarity(results, c, chosen[0]) >= 0.0;
    var m := MaxSim(results, chosen, c);
    var k :| 0 <= k < |chosen| && m == Similarity(results, c, chosen[k]);
    assert Share(results[c].content, results[chosen[k]].content, m);
  }

  lemma SimilarityRange(results: seq<SearchResult>, i: nat, j: nat)
    requires i < |results| && j < |results|
    ensures 0.0 <= Similarity(results, i, j) <= 1.0
  {
    hide Tokenize, Jaccard;
    JaccardExactly(Tokenize(results[i].content), Tokenize(results[j].content));
  }

  /** Every later pick of a greedy order weighs at least as much as any other result that was still there: what it gains
      in relevance, weighted by lambda, is at least what it loses in similarity to the ones picked before, weighted by the
      rest. Among equals it is listed first. */
  lemma LaterPicks(results: seq<SearchResult>, lambda: real, order: seq<nat>, k: nat, c: nat, least: real, most: real,
                   simPick: real, simOther: real)
    requires Greedy(results, lambda, order) && 0 < k < |order| && c < |results| && c !in order[..k]
    requires IsLeast(results, least) && IsMost(results, most)
    requires IsClosest(results, order[..k], order[k], simPick) && IsClosest(results, order[..k], c, simOther)
    ensures var range := if most - least > 0.000001 then most - least else 0.000001;
            var gain := (results[order[k]].score - least) / range - (results[c].score - least) / range;
            && lambda * gain >= (1.0 - lambda) * (simPick - simOther)
            && (lambda * gain == (1.0 - lambda) * (simPick - simOther) ==> order[k] <= c)
  {
    hide MaxSim, IsClosest, IsLeast, IsMost, MinScore, MaxScore;
    assert Picks(results, lambda, order[..k], order[k]);
    assert Indices(order[..k], |results|);
    var pick := order[k];
    MinIsLeast(results, least);
    MaxIsMost(results, most);
    ClosestIsMaxSim(results, order[..k], pick, simPick);
    ClosestIsMaxSim(results, order[..k], c, simOther);
    Weigh(lambda, Relevance(results, pick), Relevance(results, c), simPick, simOther);
  }

  lemma Weigh(lambda: real, x: real, y: real, s: real, t: real)
    ensures lambda * x - (1.0 - lambda) * s >= lambda * y - (1.0 - lambda) * t
        <==> lambda * (x - y) >= (1.0 - lambda) * (s - t)
    ensures lambda * x - (1.0 - lambda) * s == lambda * y - (1.0 - lambda) * t
        <==> lambda * (x - y) == (1.0 - lambda) * (s - t)
  {
    assert lambda * (x - y) == lambda * x - lambda * y;
    assert (1.0 - lambda) * (s - t) == (1.0 - lambda) * s - (1.0 - lambda) * t;
  }

  /** With lambda below 1, of two results with equal scores the one less similar to what was picked comes first. */
  lemma LessSimilarFirst(results: seq<SearchResult>, lambda: real, order: seq<nat>, k: nat, c: nat, simPick: real,
                         simOther: real)
    requires Greedy(results, lambda, order) && 0 < k < |order| && c < |results| && c !in order[..k] && lambda < 1.0
    requires results[order[k]].score == results[c].score
    requires IsClosest(results, order[..k], order[k], simPick) && IsClosest(results, order[..k], c, simOther)
    ensures simPick <= simOther
  {
    hide MaxSim, IsClosest, MinScore, MaxScore, Relevance;
    assert Picks(results, lambda, order[..k], order[k]) && Indices(order[..k], |results|);
    hide Greedy, Picks;
    var x, y := Relevance(results, order[k]), Relevance(results, c);
    ClosestIsMaxSim(results, order[..k], order[k], simPick);
    ClosestIsMaxSim(results, order[..k], c, simOther);
    RelevanceOrder(results, order[k], c);
    RelevanceOrder(results, c, order[k]);
    Weigh(lambda, x, y, simPick, simOther);
    NotMore(lambda, x - y, simPick - simOther);
  }

  lemma NotMore(lambda: real, gain: real, d: real)
    requires lambda < 1.0 && gain == 0.0 && lambda * gain >= (1.0 - lambda) * d
    ensures d <= 0.0
  {
    assert lambda * gain == 0.0;
    if d > 0.0 { Positive(1.0 - lambda, d); }
  }

  lemma Positive(x: real, y: real)
    requires x > 0.0 && y > 0.0
    ensures x * y > 0.0
  {
  }

  // ── the reranking loop ──

  /** The indices below `n` that are not chosen, in order. */
  function Remaining(n: nat, chosen: seq<nat>): seq<nat> {
    if n == 0 then []
    else if n - 1 in chosen then Remaining(n - 1, chosen)
    else Remaining(n - 1, chosen) + [n - 1]
  }

  predicate Increasing(s: seq<nat>) {
    forall j, k :: 0 <= j < k < |s| ==> s[j] < s[k]
  }

  lemma {:induction false} RemainingExactly(n: nat, chosen: seq<nat>)
    ensures Increasing(Remaining(n, chosen))
    ensures forall i: nat :: i in Remaining(n, chosen) <==> i < n && i !in chosen
  {
    if n > 0 {
      RemainingExactly(n - 1, chosen);
      var r := Remaining(n - 1, chosen);
      assert forall j :: 0 <= j < |r| ==> r[j] in r;
    }
  }

  /** `retain(|&i| i != gone)`. */
  function Retain(s: seq<nat>, gone: nat): seq<nat> {
    if s == [] then []
    else
      var rest := Retain(s[..|s| - 1], gone);
      if s[|s| - 1] == gone then rest else rest + [s[|s| - 1]]
  }

  lemma {:induction false} RetainRemaining(n: nat, chosen: seq<nat>, gone: nat)
    ensures Retain(Remaining(n, chosen), gone) == Remaining(n, chosen + [gone])
  {
    hide Retain;
    if n == 0 {
      RetainNothing(gone);
    } else {
      var last := n - 1;
      RetainRemaining(last, chosen, gone);
      RetainPush(Remaining(last, chosen), last, gone);
      assert last in chosen + [gone] <==> last in chosen || last == gone;
    }
  }

  lemma RetainNothing(gone: nat)
    ensures Retain([], gone) == []
  {
  }

  lemma RetainPush(s: seq<nat>, x: nat, gone: nat)
    ensures Retain(s + [x], gone) == if x == gone then Retain(s, gone) else Retain(s, gone) + [x]
  {
  }

  function Items(results: seq<SearchResult>, order: seq<nat>): (r: seq<SearchResult>)
    requires forall k :: 0 <= k < |order| ==> order[k] < |results|
    ensures |r| == |order| && forall k :: 0 <= k < |r| ==> r[k] == results[order[k]]
  {
    seq(|order|, k requires 0 <= k < |order| => results[order[k]])
  }

  lemma ItemsPush(results: seq<SearchResult>, s: seq<nat>, i: nat)
    requires Indices(s, |results|) && i < |results|
    ensures multiset(Items(results, s + [i])) == multiset(Items(results, s)) + multiset{results[i]}
  {
    assert Items(results, s + [i]) == Items(results, s) + [results[i]];
  }

  lemma {:induction false} ItemsRetain(results: seq<SearchResult>, s: seq<nat>, gone: nat)
    requires Indices(s, |results|) && gone in s && Increasing(s)
    ensures Indices(Retain(s, gone), |results|)
    ensures multiset(Items(results, s)) == multiset(Items(results, Retain(s, gone))) + multiset{results[gone]}
  {
    hide Items;
    var m := |s| - 1;
    assert s == s[..m] + [s[m]];
    ItemsPush(results, s[..m], s[m]);
    if s[m] == gone {
      assert gone !in s[..m];
      RetainAll(s[..m], gone);
    } else {
      ItemsRetain(results, s[..m], gone);
      ItemsPush(results, Retain(s[..m], gone), s[m]);
    }
  }

  lemma {:induction false} RetainAll(s: seq<nat>, gone: nat)
    requires gone !in s
    ensures Retain(s, gone) == s
  {
    if s != [] {
      RetainAll(s[..|s| - 1], gone);
    }
  }

  lemma {:induction false} RemainingAll(n: nat)
    ensures |Remaining(n, [])| == n && forall k :: 0 <= k < n ==> Remaining(n, [])[k] == k
  {
    if n > 0 {
      RemainingAll(n - 1);
    }
  }

  /** What is selected and what remains are together the results. */
  ghost predicate Shared(results: seq<SearchResult>, selected: seq<nat>, remaining: seq<nat>) {
    && Indices(selected, |results|) && Indices(remaining, |results|)
    && remaining == Remaining(|results|, selected)
    && multiset(Items(results, selected)) + multiset(Items(results, remaining)) == multiset(results)
  }

  lemma SharedStart(results: seq<SearchResult>)
    ensures Shared(results, [], Remaining(|results|, []))
  {
    RemainingAll(|results|);
    assert Items(results, Remaining(|results|, [])) == results;
    assert multiset(Items(results, [])) == multiset{};
  }

  lemma SharedStep(results: seq<SearchResult>, selected: seq<nat>, remaining: seq<nat>, pick: nat)
    requires Shared(results, selected, remaining) && pick in remaining
    ensures Shared(results, selected + [pick], Retain(remaining, pick))
  {
    hide Retain, Remaining, Items;
    RemainingExactly(|results|, selected);
    RetainRemaining(|results|, selected, pick);
    ItemsRetain(results, remaining, pick);
    ItemsPush(results, selected, pick);
  }

  lemma GreedyStep(results: seq<SearchResult>, lambda: real, selected: seq<nat>, pick: nat)
    requires Greedy(results, lambda, selected) && Picks(results, lambda, selected, pick)
    ensures Greedy(results, lambda, selected + [pick])
  {
    assert pick < |results|;
    hide Picks;
    var longer := selected + [pick];
    assert longer[..|selected|] == selected;
    forall k | 0 <= k < |longer| ensures Picks(results, lambda, longer[..k], longer[k]) {
      if k < |selected| {
        assert longer[..k] == selected[..k];
      }
    }
  }

  /** The last of the highest normalised scores. */
  method PickFirst(results: seq<SearchResult>, normalized: seq<real>, lambda: real) returns (first: nat)
    requires results != [] && |normalized| == |results|
    requires forall i :: 0 <= i < |results| ==> normalized[i] == Relevance(results, i)
    ensures Picks(results, lambda, [], first)
  {
    hide Relevance;
    first := 0;
    var i := 1;
    while i < |normalized|
      invariant 1 <= i <= |normalized| && first < i
      invariant forall j :: 0 <= j < i ==>
                  normalized[j] <= normalized[first] && (j > first ==> normalized[j] < normalized[first])
    {
      if normalized[first] <= normalized[i] {
        first := i;
      }
      i := i + 1;
    }
    forall j: nat | j < |results|
      ensures results[j].score <= results[first].score && (j > first ==> results[j].score < results[first].score)
    {
      RelevanceOrder(results, j, first);
      RelevanceOrder(results, first, j);
    }
  }

  /** The first remaining candidate with the largest value. */
  method PickNext(results: seq<SearchResult>, normalized: seq<real>, lambda: real, selected: seq<nat>,
                  remaining: seq<nat>)
    returns (best: nat)
    requires |normalized| == |results| && selected != [] && remaining != []
    requires Shared(results, selected, remaining)
    requires forall i :: 0 <= i < |results| ==> normalized[i] == Relevance(results, i)
    ensures best in remaining && Picks(results, lambda, selected, best)
  {
    hide Relevance, MaxSim, Remaining;
    RemainingExactly(|results|, selected);
    best := remaining[0];
    var bestValue := lambda * normalized[best] - (1.0 - lambda) * MaxSim(results, selected, best);
    var k, at := 1, 0;
    while k < |remaining|
      invariant 1 <= k <= |remaining| && 0 <= at < k && best == remaining[at]
      invariant bestValue == Value(results, lambda, selected, best)
      invariant forall j :: 0 <= j < k ==>
                  && Value(results, lambda, selected, remaining[j]) <= bestValue
                  && (j < at ==> Value(results, lambda, selected, remaining[j]) < bestValue)
    {
      var candidate := remaining[k];
      var value := lambda * normalized[candidate] - (1.0 - lambda) * MaxSim(results, selected, candidate);
      assert value == Value(results, lambda, selected, candidate);
      if value > bestValue {
        best, bestValue, at := candidate, value, k;
      }
      k := k + 1;
    }
    hide Value;
    forall i: nat | i < |results| && i !in selected
      ensures Value(results, lambda, selected, i) <= bestValue
      ensures i < best ==> Value(results, lambda, selected, i) < bestValue
    {
      var j :| 0 <= j < |remaining| && remaining[j] == i;
      assert j == at || (j < at <==> i < best);
    }
  }

  /** The selection: the first pick, then greedy picks until nothing remains. */
  method Select(results: seq<SearchResult>, lambda: real) returns (selected: seq<nat>)
    requires results != []
    ensures Greedy(results, lambda, selected) && Shared(results, selected, [])
  {
    hide Picks, Greedy, Shared, Remaining, Retain, Relevance, Indices;
    var n := |results|;
    var normalized := seq(n, i requires 0 <= i < n => Relevance(results, i));
    var remaining := Remaining(n, []);
    SharedStart(results);
    GreedyStart(results, lambda);
    var first := PickFirst(results, normalized, lambda);
    StillThere(results, lambda, [], first);
    SharedStep(results, [], remaining, first);
    GreedyStep(results, lambda, [], first);
    assert [] + [first] == [first];
    selected, remaining := [first], Retain(remaining, first);
    while remaining != []
      invariant Greedy(results, lambda, selected) && Shared(results, selected, remaining) && selected != []
      decreases |remaining|
    {
      var best := PickNext(results, normalized, lambda, selected, remaining);
      SharedStep(results, selected, remaining, best);
      GreedyStep(results, lambda, selected, best);
      RetainShorter(remaining, best);
      selected, remaining := selected + [best], Retain(remaining, best);
    }
  }

  lemma AtMostOne(results: seq<SearchResult>, lambda: real)
    requires |results| <= 1
    ensures var order: seq<nat> := if results == [] then [] else [0];
            Greedy(results, lambda, order) && Items(results, order) == results
  {
  }

  /** Reranks by repeated greedy picks; the answer is a permutation of the results. */
  method MmrRerank(results: seq<SearchResult>, lambda: real) returns (ranked: seq<SearchResult>, ghost order: seq<nat>)
    ensures |order| == |results| && Greedy(results, lambda, order) && ranked == Items(results, order)
    ensures multiset(ranked) == multiset(results)
  {
    hide Picks, Shared, Items, Greedy;
    if |results| <= 1 {
      order := if results == [] then [] else [0];
      ranked := results;
      AtMostOne(results, lambda);
      return;
    }
    var selected := Select(results, lambda);
    SharedEnd(results, selected);
    ranked := [];
    while |ranked| < |selected|
      invariant |ranked| <= |selected| && forall k :: 0 <= k < |ranked| ==> ranked[k] == results[selected[k]]
    {
      ranked := ranked + [results[selected[|ranked|]]];
    }
    order := selected;
    assert Greedy(results, lambda, order);
  }

  lemma GreedyStart(results: seq<SearchResult>, lambda: real)
    ensures Greedy(results, lambda, [])
  {
  }

  lemma StillThere(results: seq<SearchResult>, lambda: real, selected: seq<nat>, pick: nat)
    requires Indices(selected, |results|) && Picks(results, lambda, selected, pick)
    ensures pick in Remaining(|results|, selected)
  {
    RemainingExactly(|results|, selected);
  }

  lemma {:induction false} RetainShorter(s: seq<nat>, gone: nat)
    ensures |Retain(s, gone)| <= |s| && (gone in s ==> |Retain(s, gone)| < |s|)
  {
    if s != [] {
      RetainShorter(s[..|s| - 1], gone);
      assert s == s[..|s| - 1] + [s[|s| - 1]];
    }
  }

  lemma SharedEnd(results: seq<SearchResult>, selected: seq<nat>)
    requires Shared(results, selected, [])
    ensures Indices(selected, |results|) && |selected| == |results|
    ensures multiset(Items(results, selected)) == multiset(results)
  {
    assert multiset(Items(results, [])) == multiset{};
    assert |multiset(Items(results, selected))| == |Items(results, selected)|;
    assert |multiset(results)| == |results|;
  }
}
