/** The string operations the parsers use: trimming and leftmost search. */
module Text {
  import opened Wrappers

  /** Characters with Unicode property White_Space, which is what `str::trim` removes. */
  predicate IsWhite(c: char) {
    || '\U{0009}' <= c <= '\U{000D}'
    || c == ' ' || c == '\U{0085}' || c == '\U{00A0}' || c == '\U{1680}'
    || '\U{2000}' <= c <= '\U{200A}'
    || c == '\U{2028}' || c == '\U{2029}' || c == '\U{202F}' || c == '\U{205F}' || c == '\U{3000}'
  }

  /** Non-empty, with no white space at either end. */
  predicate Tight(s: string) {
    s != "" && !IsWhite(s[0]) && !IsWhite(s[|s| - 1])
  }

  predicate Blank(s: string) {
    forall i :: 0 <= i < |s| ==> IsWhite(s[i])
  }

  function TrimStart(s: string): (r: string)
    ensures |r| <= |s| && r == s[|s| - |r|..]
    ensures Blank(s[..|s| - |r|])
    ensures r != "" ==> !IsWhite(r[0])
  {
    if s != "" && IsWhite(s[0]) then TrimStart(s[1..]) else s
  }

  function TrimEnd(s: string): (r: string)
    ensures |r| <= |s| && r == s[..|r|]
    ensures Blank(s[|r|..])
    ensures r != "" ==> !IsWhite(r[|r| - 1])
  {
    if s != "" && IsWhite(s[|s| - 1]) then
      var r := TrimEnd(s[..|s| - 1]);
      assert s[|r|..] == s[..|s| - 1][|r|..] + [s[|s| - 1]];
      r
    else s
  }

  function Trim(s: string): (r: string)
    ensures |r| <= |s|
    ensures r != "" ==> Tight(r)
  {
    TrimEnd(TrimStart(s))
  }

  lemma TrimBlank(s: string)
    ensures Trim(s) == "" <==> Blank(s)
  {
  }

  lemma TrimTight(s: string)
    requires Tight(s)
    ensures Trim(s) == s
  {
  }

  /** A text with one character that is not white space trims to a tight text. */
  lemma TrimKeeps(s: string, k: nat)
    requires k < |s| && !IsWhite(s[k])
    ensures Tight(Trim(s)) && Trim(Trim(s)) == Trim(s)
  {
  }

  /** The text up to the first white space. */
  function Word(s: string): (r: string)
    ensures r <= s && forall i :: 0 <= i < |r| ==> !IsWhite(r[i])
    ensures r != s ==> IsWhite(s[|r|])
  {
    if s == "" || IsWhite(s[0]) then "" else [s[0]] + Word(s[1..])
  }

  /** `str::split_whitespace`. */
  function Words(s: string): seq<string>
    decreases |s|
  {
    var t := TrimStart(s);
    if t == "" then [] else [Word(t)] + Words(t[|Word(t)|..])
  }

  /** `pattern` starts at position `i` of `s`. */
  predicate OccursAt(s: string, pattern: string, i: nat) {
    i + |pattern| <= |s| && s[i..i + |pattern|] == pattern
  }

  ghost predicate Occurs(s: string, pattern: string) {
    exists i: nat :: OccursAt(s, pattern, i)
  }

  /** The first position at or after `start` where `pattern` occurs. */
  function FindFrom(s: string, pattern: string, start: nat): (r: Option<nat>)
    ensures r.Some? ==> start <= r.value && OccursAt(s, pattern, r.value)
    ensures r.Some? ==> forall j: nat :: start <= j < r.value ==> !OccursAt(s, pattern, j)
    ensures r.None? ==> forall j: nat :: start <= j ==> !OccursAt(s, pattern, j)
    decreases |s| - start
  {
    if start + |pattern| > |s| then None
    else if OccursAt(s, pattern, start) then Some(start)
    else FindFrom(s, pattern, start + 1)
  }

  /** Where `str::split_once(pattern)` cuts. */
  function Find(s: string, pattern: string): (r: Option<nat>)
    ensures r.Some? ==> OccursAt(s, pattern, r.value) && forall j: nat :: j < r.value ==> !OccursAt(s, pattern, j)
    ensures r.None? <==> !Occurs(s, pattern)
  {
    FindFrom(s, pattern, 0)
  }

  /** `str::len`: bytes of UTF-8. */
  function Len(s: string): nat {
    if s == "" then 0
    else Len(s[1..]) + if s[0] < '\U{80}' then 1 else if s[0] < '\U{800}' then 2 else if s[0] < '\U{10000}' then 3 else 4
  }

  // ── a word between single spaces ──

  predicate SpaceFree(w: string) {
    w != "" && forall i :: 0 <= i < |w| ==> !IsWhite(w[i])
  }

  function Spaced(w: string): (r: string)
    ensures |r| == |w| + 2
  {
    " " + w + " "
  }

  /** The operator word `op` does not stand between two spaces in `s`, not even at its ends. */
  ghost predicate Free(s: string, op: string) {
    !Occurs(Spaced(s), Spaced(op))
  }

  /** An occurrence of an operator word has no space strictly inside. */
  lemma Straddle(s: string, op: string, i: nat, mid: nat)
    requires SpaceFree(op)
    ensures i < mid <= i + |op| && mid < |s| && s[mid] == ' ' ==> !OccursAt(s, Spaced(op), i)
  {
  }

  /** The only word found between spaces in a padded word is the word itself. */
  lemma WordOccurrence(w: string, op: string, i: nat)
    requires SpaceFree(w) && SpaceFree(op) && OccursAt(Spaced(w), Spaced(op), i)
    ensures w == op
  {
    var cut := Spaced(w)[i..i + |Spaced(op)|];
    assert cut[0] == ' ' && cut[|op| + 1] == ' ';
    assert Spaced(w)[i] == ' ' && Spaced(w)[i + |op| + 1] == ' ';
    assert forall k :: 0 <= k < |w| ==> Spaced(w)[k + 1] == w[k];
    assert i == 0 && |op| == |w|;
    assert w == Spaced(w)[1..|w| + 1] && op == Spaced(op)[1..|op| + 1];
  }

  lemma WordFree(w: string, op: string)
    requires SpaceFree(w) && SpaceFree(op) && w != op
    ensures Free(w, op)
  {
    forall i: nat ensures OccursAt(Spaced(w), Spaced(op), i) ==> w == op {
      if OccursAt(Spaced(w), Spaced(op), i) { WordOccurrence(w, op, i); }
    }
  }

  /** An operator in joined text lies in one of the parts: it cannot reach over the space between them. */
  lemma JoinOccurrence(p: string, q: string, op: string, i: nat)
    requires SpaceFree(op) && OccursAt(Spaced(p + " " + q), Spaced(op), i)
    ensures OccursAt(Spaced(p), Spaced(op), i)
         || (i >= |p| + 1 && OccursAt(Spaced(q), Spaced(op), i - |p| - 1))
  {
    var whole, pattern, mid := Spaced(p + " " + q), Spaced(op), |p| + 1;
    assert whole == Spaced(p) + q + " " && whole == " " + p + Spaced(q);
    Straddle(whole, op, i, mid);
    if i + |pattern| <= mid + 1 {
      assert whole[..mid + 1] == Spaced(p);
      assert Spaced(p)[i..i + |pattern|] == whole[i..i + |pattern|];
    } else if i >= mid {
      assert whole[mid..] == Spaced(q);
      assert Spaced(q)[i - mid..i - mid + |pattern|] == whole[i..i + |pattern|];
    }
  }

  /** Joining with one space neither creates nor hides an operator. */
  lemma FreeJoin(p: string, q: string, op: string)
    requires SpaceFree(op) && Free(p, op) && Free(q, op)
    ensures Free(p + " " + q, op)
  {
    forall i: nat
      ensures OccursAt(Spaced(p + " " + q), Spaced(op), i) ==>
                OccursAt(Spaced(p), Spaced(op), i)
                || (i >= |p| + 1 && OccursAt(Spaced(q), Spaced(op), i - |p| - 1))
    {
      if OccursAt(Spaced(p + " " + q), Spaced(op), i) { JoinOccurrence(p, q, op, i); }
    }
  }

  /** An operator that starts before the end of `left` in `left op right` lies between the spaces around `left`. */
  lemma LeftOccurrence(left: string, op: string, right: string, j: nat)
    requires SpaceFree(op) && j < |left| && OccursAt(left + Spaced(op) + right, Spaced(op), j)
    ensures OccursAt(Spaced(left), Spaced(op), j + 1)
  {
    var s, pattern := left + Spaced(op) + right, Spaced(op);
    assert s[|left|] == ' ';
    Straddle(s, op, j, |left|);
    if j + |pattern| <= |left| + 1 {
      assert s[..|left| + 1] == left + " " == Spaced(left)[1..];
      assert Spaced(left)[j + 1..j + 1 + |pattern|] == s[j..j + |pattern|];
    }
  }

  /** The leftmost cut of `left op right` is between `left` and `right` when `left` is free of `op`. */
  lemma SplitsAtJoin(left: string, op: string, right: string)
    requires SpaceFree(op) && Free(left, op)
    ensures Find(left + Spaced(op) + right, Spaced(op)) == Some(|left|)
  {
    var s, pattern := left + Spaced(op) + right, Spaced(op);
    assert s[|left|..|left| + |pattern|] == pattern;
    assert OccursAt(s, pattern, |left|);
    forall j: nat ensures j < |left| && OccursAt(s, pattern, j) ==> OccursAt(Spaced(left), pattern, j + 1) {
      if j < |left| && OccursAt(s, pattern, j) { LeftOccurrence(left, op, right, j); }
    }
  }

  lemma PaddedOccurrence(s: string, pattern: string, i: nat)
    requires OccursAt(s, pattern, i)
    ensures OccursAt(Spaced(s), pattern, i + 1)
  {
  }

  /** Text free of `op` has no cut at `op`. */
  lemma NoSplit(s: string, op: string)
    requires Free(s, op)
    ensures Find(s, Spaced(op)) == None
  {
    forall i: nat ensures OccursAt(s, Spaced(op), i) ==> OccursAt(Spaced(s), Spaced(op), i + 1) {
      if OccursAt(s, Spaced(op), i) { PaddedOccurrence(s, Spaced(op), i); }
    }
  }
}
