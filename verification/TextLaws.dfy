/** What white space, words and lengths are, apart from how they are computed. */
module TextLaws {
  import opened Text

  /** From `i` up to `j` the text reads `w`: no white space inside, and white space or an end on both sides. */
  predicate WordAt(s: string, w: string, i: nat, j: nat) {
    && i < j <= |s| && s[i..j] == w && (forall k :: i <= k < j ==> !IsWhite(s[k]))
    && (i == 0 || IsWhite(s[i - 1])) && (j == |s| || IsWhite(s[j]))
  }

  lemma PastBlank(s: string, n: nat, w: string, i: nat, j: nat)
    requires n <= |s| && (forall k :: 0 <= k < n ==> IsWhite(s[k])) && WordAt(s, w, i, j)
    ensures n <= i <= j && WordAt(s[n..], w, i - n, j - n)
  {
    hide IsWhite;
    assert !IsWhite(s[i]);
    assert s[n..][i - n..j - n] == s[i..j];
  }

  lemma WordMoved(s: string, n: nat, w: string, i: nat, j: nat)
    requires n <= |s| && WordAt(s[n..], w, i, j) && (i > 0 || n == 0 || IsWhite(s[n - 1]))
    ensures WordAt(s, w, i + n, j + n)
  {
    hide IsWhite;
    assert forall k :: i + n <= k < j + n ==> s[k] == s[n..][k - n];
    assert s[i + n..j + n] == s[n..][i..j];
  }

  lemma LeadingWhite(s: string)
    ensures forall k :: 0 <= k < |s| - |TrimStart(s)| ==> IsWhite(s[k])
    ensures TrimStart(s) == s[|s| - |TrimStart(s)|..]
    ensures TrimStart(s) != "" ==> !IsWhite(TrimStart(s)[0])
  {
    hide IsWhite, TrimStart;
    var n := |s| - |TrimStart(s)|;
    assert forall k :: 0 <= k < n ==> s[k] == s[..n][k];
  }

  lemma FirstIsWord(t: string)
    requires t != "" && !IsWhite(t[0])
    ensures WordAt(t, Word(t), 0, |Word(t)|) && 0 < |Word(t)| <= |t|
  {
    hide IsWhite;
    var w := Word(t);
    assert forall k :: 0 <= k < |w| ==> t[k] == w[k];
  }

  /** Any other word of the text lies behind the first and the white space after it. */
  lemma PastFirst(t: string, first: string, m: nat, w: string, i: nat, j: nat)
    requires WordAt(t, first, 0, m) && WordAt(t, w, i, j)
    ensures i == 0 ==> w == first
    ensures i > 0 ==> m < i < j && WordAt(t[m..], w, i - m, j - m)
  {
    hide IsWhite;
    if i == 0 {
      assert m == j;
    } else {
      assert IsWhite(t[i - 1]) && !IsWhite(t[i]);
      assert t[m..][i - m..j - m] == t[i..j];
    }
  }

  lemma OneWord(s: string)
    requires TrimStart(s) != ""
    ensures var t := TrimStart(s);
            0 < |Word(t)| <= |t| && |t[|Word(t)|..]| < |s| && Words(s) == [Word(t)] + Words(t[|Word(t)|..])
  {
    hide IsWhite, TrimStart, Word;
    LeadingWhite(s);
    FirstIsWord(TrimStart(s));
  }

  /** Splitting at white space gives exactly the words of the text. */
  lemma {:induction false} WordsExactly(s: string, w: string)
    ensures w in Words(s) <==> exists i: nat, j: nat :: WordAt(s, w, i, j)
    decreases |s|
  {
    hide IsWhite, WordAt, TrimStart, Word, Words;
    var t := TrimStart(s);
    var n := |s| - |t|;
    LeadingWhite(s);
    if t == "" {
      assert Words(s) == [] by { NoWords(s); }
      forall i: nat, j: nat ensures !WordAt(s, w, i, j) {
        NothingThere(s, w, i, j);
      }
    } else {
      var first := Word(t);
      var m, rest := |first|, t[|first|..];
      FirstIsWord(t);
      OneWord(s);
      WordsExactly(rest, w);
      if w == first {
        WordMoved(s, n, w, 0, m);
      } else if w in Words(rest) {
        var i: nat, j: nat :| WordAt(rest, w, i, j);
        BehindFirst(t, first, m, w, i, j);
        WordMoved(s, n, w, i + m, j + m);
      }
      forall i: nat, j: nat | WordAt(s, w, i, j) ensures w in Words(s) {
        PastBlank(s, n, w, i, j);
        PastFirst(t, first, m, w, i - n, j - n);
      }
    }
  }

  lemma NoWords(s: string)
    requires TrimStart(s) == ""
    ensures Words(s) == []
  {
  }

  lemma NothingThere(s: string, w: string, i: nat, j: nat)
    requires forall k :: 0 <= k < |s| ==> IsWhite(s[k])
    ensures !WordAt(s, w, i, j)
  {
    hide IsWhite;
    if i < |s| { assert IsWhite(s[i]); }
  }

  lemma BehindFirst(t: string, first: string, m: nat, w: string, i: nat, j: nat)
    requires WordAt(t, first, 0, m) && WordAt(t[m..], w, i, j)
    ensures WordAt(t, w, i + m, j + m) && i > 0
  {
    hide IsWhite;
    assert t[m..][i] == t[m + i];
    assert !IsWhite(t[m + i]);
    assert i > 0;
    WordMoved(t, m, w, i, j);
  }

  // ── lengths in bytes ──

  lemma {:induction false} LenAppend(a: string, b: string)
    ensures Len(a + b) == Len(a) + Len(b)
  {
    if a == [] {
      assert a + b == b;
    } else {
      LenAppend(a[1..], b);
      assert (a + b)[1..] == a[1..] + b;
    }
  }

  /** UTF-8 takes 7 bits in one byte, 11 in two, 16 in three and the rest in four. */
  lemma LenOne(c: char)
    ensures 1 <= Len([c]) <= 4
    ensures (Len([c]) == 1 <==> c as int < 0x80) && (Len([c]) <= 2 <==> c as int < 0x800)
    ensures Len([c]) <= 3 <==> c as int < 0x1_0000
  {
    assert Len([c][1..]) == 0;
  }

  /** So the byte length of an ASCII text is its number of characters, and of any text at least that. */
  lemma {:induction false} LenBounds(s: string)
    ensures |s| <= Len(s) <= 4 * |s|
    ensures Len(s) == |s| <==> forall i :: 0 <= i < |s| ==> s[i] as int < 0x80
  {
    if s != "" {
      LenBounds(s[1..]);
      LenOne(s[0]);
      LenAppend([s[0]], s[1..]);
      assert s == [s[0]] + s[1..];
      assert forall i :: 1 <= i < |s| ==> s[i] == s[1..][i - 1];
    }
  }

  // ── white space ──

  /** The twenty-five characters that count as white space. */
  const WHITE: set<int> := {
    0x09, 0x0A, 0x0B, 0x0C, 0x0D, 0x20, 0x85, 0xA0, 0x1680, 0x2000, 0x2001, 0x2002, 0x2003, 0x2004, 0x2005, 0x2006,
    0x2007, 0x2008, 0x2009, 0x200A, 0x2028, 0x2029, 0x202F, 0x205F, 0x3000}

  lemma WhiteExactly(c: char)
    ensures IsWhite(c) <==> c as int in WHITE
  {
  }
}
