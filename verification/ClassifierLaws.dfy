/** What the command splitter promises: joined commands, exact conditions, nothing lost, segments stable. */
module ClassifierLaws {
  import opened Sequences
  import opened Text
  import opened Classifier

  // ── scanning a concatenation ──

  /** Gluing `b` to `a` does not turn two operators into one. */
  predicate Separate(a: string, b: string) {
    a != "" && b != "" && a[|a| - 1] == b[0] ==> b[0] != '&' && b[0] != '|'
  }

  /** The one character of `a` and the first of `b` are read as one operator. */
  predicate Merges(a: string, b: string, m: Mode) {
    m.Outside? && |a| == 1 && b != "" && a[0] == b[0] && (b[0] == '&' || b[0] == '|')
  }

  lemma HeadAppend(a: string, b: string, m: Mode)
    requires a != "" && !Merges(a, b, m) && !(a == "\\" && !m.SingleQuoted?)
    ensures Head(a + b, m) == Head(a, m) && Next(a + b, m) == Next(a, m) && Rest(a + b, m) == Rest(a, m) + b
  {
    assert (a + b)[0] == a[0];
    if |a| > 1 {
      assert (a + b)[..2] == a[..2];
    } else if b != "" {
      assert (a + b)[..2] == [a[0], b[0]];
    } else {
      assert a + b == a;
    }
    assert (a + b)[..1] == a[..1];
  }

  lemma SeparateApart(a: string, b: string, m: Mode)
    requires Separate(a, b)
    ensures !Merges(a, b, m)
  {
  }

  lemma SeparateRest(a: string, b: string, m: Mode)
    requires a != "" && Separate(a, b)
    ensures Separate(Rest(a, m), b)
  {
  }

  lemma EmptyLex(m: Mode)
    ensures Lex("", m) == []
  {
  }

  /** Scanning is a homomorphism: the second part is scanned in the mode the first one ends in. */
  lemma {:induction false} LexAppend(a: string, b: string, m: Mode)
    requires !Dangling(a, m) && Separate(a, b)
    ensures Lex(a + b, m) == Lex(a, m) + Lex(b, EndMode(a, m))
    ensures EndMode(a + b, m) == EndMode(b, EndMode(a, m))
    decreases |a|
  {
    hide Lex, Head, Next, Rest, Dangling, Separate, Merges;
    if a == "" {
      assert a + b == b;
      assert Lex(a, m) == [] by { EmptyLex(m); }
    } else {
      DanglingStep(a, m);
      SeparateApart(a, b, m);
      HeadAppend(a, b, m);
      SeparateRest(a, b, m);
      LexAppend(Rest(a, m), b, Next(a, m));
      LexStep(a, m);
      LexStep(a + b, m);
      AppendStep([Head(a, m)], Lex(Rest(a, m), Next(a, m)), Lex(b, EndMode(a, m)));
    }
  }

  lemma AppendStep<T>(a: seq<T>, b: seq<T>, c: seq<T>)
    ensures a + (b + c) == (a + b) + c
  {
  }

  lemma DanglingStep(s: string, m: Mode)
    requires s != "" && !Dangling(s, m)
    ensures !(s == "\\" && !m.SingleQuoted?) && !Dangling(Rest(s, m), Next(s, m))
  {
  }

  lemma StepAppend(head: Token, a: seq<string>, b: seq<string>)
    requires a != []
    ensures SplitStep(head, a + b) == SplitStep(head, a) + b
  {
  }

  /** The operators of the shell that the splitter knows. */
  predicate IsOperator(op: string) {
    op == ";" || op == "|" || op == "&" || op == "&&" || op == "||"
  }

  lemma LoneOperator(o: char)
    requires IsOperatorChar(o)
    ensures Split(Lex([o], Outside)) == ["", ""]
  {
    EmptyLex(Outside);
    LexStep([o], Outside);
    assert Head([o], Outside) == Operator([o]) && Rest([o], Outside) == "";
  }

  /** What scanning makes of an operator character, and of the same one twice. */
  lemma OperatorHead(o: char, x: string)
    requires IsOperatorChar(o)
    ensures (x == "" || x[0] != o || o == ';') ==> Split(Lex([o] + x, Outside)) == [""] + Split(Lex(x, Outside))
    ensures o != ';' ==> Split(Lex([o, o] + x, Outside)) == [""] + Split(Lex(x, Outside))
  {
    hide Lex, Split;
    var one, two := [o] + x, [o, o] + x;
    LexStep(one, Outside);
    LexStep(two, Outside);
    assert |one| > 1 ==> one[..2] == [o, x[0]];
    assert two[..2] == [o, o];
    assert Rest(two, Outside) == x || o == ';';
  }

  lemma CleanBlank(rest: seq<string>)
    ensures Clean([""] + rest) == Clean(rest) && Clean(rest + [""]) == Clean(rest)
  {
    hide Trim;
    TrimBlank("");
    assert Cleaned("") == [] && [""][1..] == [];
    assert Clean([""]) == [];
    CleanAppend([""], rest);
    CleanAppend(rest, [""]);
  }

  /** An operator in front adds a blank segment; merged with one that is already there it takes one away. Either way
      the cleaned segments are the same. */
  lemma {:induction false} LeadingOperator(o: char, x: string)
    requires IsOperatorChar(o)
    ensures Split(Lex([o] + x, Outside))[0] == ""
    ensures Clean(Split(Lex([o] + x, Outside))[1..]) == Clean(Split(Lex(x, Outside)))
    ensures Clean(Split(Lex([o] + x, Outside))) == Clean(Split(Lex(x, Outside)))
    decreases |x|
  {
    hide Lex, Split, Clean;
    var whole, raw := Split(Lex([o] + x, Outside)), Split(Lex(x, Outside));
    if x == "" || x[0] != o || o == ';' {
      OperatorHead(o, x);
      CleanBlank(raw);
    } else {
      var y := x[1..];
      assert x == [o] + y && [o] + x == [o, o] + y;
      OperatorHead(o, y);
      LeadingOperator(o, y);
      CleanBlank(Split(Lex(y, Outside)));
    }
  }

  lemma StillClean(s: string, m: Mode)
    requires s != "" && EndMode(s, m).Outside? && !Dangling(s, m)
    ensures EndMode(Rest(s, m), Next(s, m)).Outside? && !Dangling(Rest(s, m), Next(s, m))
    ensures !(s == "\\" && !m.SingleQuoted?)
  {
  }

  /** `whole` is the raw segments `raw`, perhaps without a blank one at the end, followed by `tail`. */
  ghost predicate Continues(raw: seq<string>, whole: seq<string>, head: seq<string>, tail: seq<string>) {
    head != [] && whole == head + tail && (raw == head || raw == head + [""])
  }

  lemma StepContinues(t: Token, raw: seq<string>, whole: seq<string>, head: seq<string>, tail: seq<string>)
    requires Continues(raw, whole, head, tail)
    ensures raw != [] && whole != []
    ensures Continues(SplitStep(t, raw), SplitStep(t, whole), SplitStep(t, head), tail)
  {
    hide SplitStep;
    StepAppend(t, head, tail);
    StepAppend(t, head, [""]);
  }

  /** After a clean end an operator character ends the segment, if it does not double the operator before it. */
  lemma {:induction false} OperatorContinues(a: string, o: char, x: string, m: Mode)
    returns (head: seq<string>, tail: seq<string>)
    requires IsOperatorChar(o) && EndMode(a, m).Outside? && !Dangling(a, m)
    ensures Continues(Split(Lex(a, m)), Split(Lex(a + [o] + x, m)), head, tail)
    ensures Clean(tail) == Clean(Split(Lex(x, Outside)))
    decreases |a|
  {
    hide Lex, Split, Clean, Dangling, Head, Next, Rest, EndMode, SplitStep;
    var b := [o] + x;
    assert a + [o] + x == a + b;
    if a == "" {
      assert EndMode(a, m) == m by { EndsHere(m); }
      LeadingOperator(o, x);
      assert a + b == b;
      LoneBackslash("", m);
      head, tail := [""], Split(Lex(b, Outside))[1..];
    } else if Merges(a, b, m) {
      assert a == [o] && a + b == [o, o] + x;
      LoneOperator(o);
      OperatorHead(o, x);
      head, tail := [""], Split(Lex(x, Outside));
    } else {
      StillClean(a, m);
      HeadAppend(a, b, m);
      var head', tail' := OperatorContinues(Rest(a, m), o, x, Next(a, m));
      assert Rest(a, m) + [o] + x == Rest(a, m) + b;
      LexStep(a, m);
      LexStep(a + b, m);
      StepContinues(Head(a, m), Split(Lex(Rest(a, m), Next(a, m))), Split(Lex(Rest(a, m) + b, Next(a, m))), head', tail');
      head, tail := SplitStep(Head(a, m), head'), tail';
    }
  }

  lemma EndsHere(m: Mode)
    ensures EndMode("", m) == m
  {
  }

  lemma JoinedByChar(c1: string, o: char, x: string)
    requires CleanEnd(c1) && IsOperatorChar(o)
    ensures Segments(c1 + [o] + x) == Segments(c1) + Segments(x)
  {
    hide Lex, Split, Clean, EndMode, Dangling;
    var head, tail := OperatorContinues(c1, o, x, Outside);
    CleanAppend(head, tail);
    CleanBlank(head);
  }

  /** The segments of two commands joined by an operator are the segments of the first, then those of the second,
      whenever the first ends outside quotes with no dangling escape: an operator that runs into its neighbours and is
      read with them only costs blank segments. */
  lemma JoinedSegments(c1: string, op: string, c2: string)
    requires CleanEnd(c1) && IsOperator(op)
    ensures Segments(c1 + op + c2) == Segments(c1) + Segments(c2)
  {
    hide Lex, Split, Clean, CleanEnd;
    var o := op[0];
    if op == [o] {
      JoinedByChar(c1, o, c2);
    } else {
      assert op == [o, o] && c1 + op + c2 == c1 + [o] + ([o] + c2);
      JoinedByChar(c1, o, [o] + c2);
      LeadingOperator(o, c2);
    }
  }

  // ── when the first part does not end cleanly ──

  predicate Unclean(s: string, m: Mode) {
    !EndMode(s, m).Outside? || Dangling(s, m)
  }

  lemma UncleanRest(s: string, m: Mode)
    requires Unclean(s, m) && s != "" && !(s == "\\" && !m.SingleQuoted?)
    ensures Unclean(Rest(s, m), Next(s, m))
  {
  }

  /** Unclean text is not a lone operator character. */
  lemma UncleanApart(a: string, b: string, m: Mode)
    requires Unclean(a, m)
    ensures !Merges(a, b, m)
  {
    if Merges(a, b, m) {
      assert Head(a, m) == Operator(a) && Rest(a, m) == "" && Next(a, m) == m;
      assert EndMode(a, m) == EndMode("", m) && !Dangling("", m);
    }
  }

  /** An operator character after an unclean end is swallowed by the last segment. */
  lemma {:induction false} Swallowed(c1: string, o: char, c2: string, m: Mode) returns (x: string, more: seq<string>)
    requires Unclean(c1, m) && IsOperatorChar(o)
    ensures SwallowedBy(Split(Lex(c1, m)), Split(Lex(c1 + [o] + c2, m)), o, x, more)
    decreases |c1|
  {
    hide Lex, Split, Head, Next, Rest, SwallowedBy, SplitStep, Merges, Unclean;
    var c := c1 + [o] + c2;
    if c1 == "" || (c1 == "\\" && !m.SingleQuoted?) {
      var rest := Split(Lex(c2, m));
      x, more := rest[0], rest[1..];
      UncleanEmpty(c1, m);
      SwallowedHere(c1, o, c2, m);
    } else {
      assert c == c1 + ([o] + c2);
      UncleanApart(c1, [o] + c2, m);
      HeadAppend(c1, [o] + c2, m);
      UncleanRest(c1, m);
      x, more := Swallowed(Rest(c1, m), o, c2, Next(c1, m));
      assert Rest(c1, m) + ([o] + c2) == Rest(c1, m) + [o] + c2;
      LexStep(c1, m);
      LexStep(c, m);
      GlueSwallowed(Head(c1, m), Split(Lex(Rest(c1, m), Next(c1, m))), Split(Lex(Rest(c, m), Next(c1, m))), o, x, more);
    }
  }

  lemma UncleanEmpty(s: string, m: Mode)
    requires Unclean(s, m)
    ensures s == "" ==> !m.Outside?
  {
  }

  /** `whole` continues the last segment of `raw` with the operator character. */
  predicate SwallowedBy(raw: seq<string>, whole: seq<string>, o: char, x: string, more: seq<string>)
    requires raw != []
  {
    whole == Init(raw) + [Last(raw) + [o] + x] + more
  }

  lemma SwallowedHead(c1: string, o: char, c2: string, m: Mode)
    requires (c1 == "" && !m.Outside?) || (c1 == "\\" && !m.SingleQuoted?)
    requires IsOperatorChar(o)
    ensures var c := c1 + [o] + c2;
            c != "" && Head(c, m) == Piece(c1 + [o]) && Next(c, m) == m && Rest(c, m) == c2
  {
  }

  /** The two places where the character itself is read as text: inside quotes, and after a backslash. */
  lemma SwallowedHere(c1: string, o: char, c2: string, m: Mode)
    requires (c1 == "" && !m.Outside?) || (c1 == "\\" && !m.SingleQuoted?)
    requires IsOperatorChar(o)
    ensures var rest := Split(Lex(c2, m));
            Split(Lex(c1, m)) == [c1] && SwallowedBy([c1], Split(Lex(c1 + [o] + c2, m)), o, rest[0], rest[1..])
  {
    hide Lex, Split, Head, Next, Rest;
    var rest := Split(Lex(c2, m));
    SwallowedHead(c1, o, c2, m);
    LexStep(c1 + [o] + c2, m);
    LoneBackslash(c1, m);
    assert Init([c1]) == [];
  }

  lemma LoneBackslash(s: string, m: Mode)
    requires s == "" || (s == "\\" && !m.SingleQuoted?)
    ensures Split(Lex(s, m)) == [s]
  {
    EmptyLex(m);
    if s != "" {
      assert s[..1] == s && Rest(s, m) == "" && Head(s, m) == Piece(s);
      EmptyLex(Next(s, m));
      LexStep(s, m);
      assert s + "" == s;
    }
  }

  lemma GlueSwallowed(head: Token, raw: seq<string>, whole: seq<string>, o: char, x: string, more: seq<string>)
    requires raw != [] && whole != [] && SwallowedBy(raw, whole, o, x, more)
    ensures SwallowedBy(SplitStep(head, raw), SplitStep(head, whole), o, x, more)
  {
    var n := |raw| - 1;
    if head.Operator? {
      assert Init([""] + raw) == [""] + Init(raw);
    } else if n == 0 {
      assert whole[0] == raw[0] + [o] + x && whole[1..] == more;
      assert head.text + (raw[0] + [o] + x) == head.text + raw[0] + [o] + x;
    } else {
      var glued := Glue(head.text, raw);
      assert whole[0] == raw[0];
      assert whole[1..] == raw[1..n] + [raw[n] + [o] + x] + more;
      assert Init(glued) == [head.text + raw[0]] + raw[1..n];
    }
  }

  lemma GlueNotBlank(front: string, rest: seq<string>)
    requires rest != [] && (!Blank(Last(rest)) || (|rest| == 1 && front != "" && !IsWhite(front[0])))
    ensures !Blank(Last(Glue(front, rest)))
  {
    if |rest| == 1 {
      var last := front + rest[0];
      if !Blank(rest[0]) {
        var k :| 0 <= k < |rest[0]| && !IsWhite(rest[0][k]);
        assert last[|front| + k] == rest[0][k];
      } else {
        assert last[0] == front[0];
      }
    } else {
      assert Last(Glue(front, rest)) == Glue(front, rest)[1..][|rest| - 2];
    }
  }

  /** Entering a quote takes a quote character. */
  lemma ModeChange(s: string, m: Mode)
    requires s != "" && m.Outside? && !Next(s, m).Outside?
    ensures Head(s, m).Piece? && !IsWhite(Head(s, m).text[0])
  {
  }

  /** An unclean end leaves something that is not white space in the last segment: the quote or the backslash. */
  lemma {:induction false} UncleanNotBlank(s: string, m: Mode)
    requires Unclean(s, m)
    ensures var raw := Split(Lex(s, m)); !Blank(Last(raw)) || (!m.Outside? && |raw| == 1)
    decreases |s|
  {
    hide Lex, Split, Head, Next, Rest, Glue, Blank, IsWhite;
    if s == "" {
      LoneBackslash(s, m);
    } else if s == "\\" && !m.SingleQuoted? {
      LoneBackslash(s, m);
      BackslashNotBlank();
    } else {
      UncleanRest(s, m);
      UncleanNotBlank(Rest(s, m), Next(s, m));
      LexStep(s, m);
      var head, rest := Head(s, m), Split(Lex(Rest(s, m), Next(s, m)));
      if head.Operator? {
        assert Last([""] + rest) == Last(rest);
        OperatorKeepsMode(s, m);
      } else if !Blank(Last(rest)) {
        GlueNotBlank(head.text, rest);
      } else if m.Outside? {
        ModeChange(s, m);
        GlueNotBlank(head.text, rest);
      }
    }
  }

  lemma BackslashNotBlank()
    ensures !Blank("\\")
  {
    assert !IsWhite("\\"[0]);
  }

  lemma OperatorKeepsMode(s: string, m: Mode)
    requires s != "" && Head(s, m).Operator?
    ensures m.Outside? && Next(s, m).Outside?
  {
  }

  lemma StartNotBlank(s: string)
    requires !Blank(s)
    ensures TrimStart(s) != ""
  {
    TrimBlank(s);
  }

  lemma TrimLonger(front: string, o: char, back: string)
    requires !Blank(front) && !IsWhite(o)
    ensures |Trim(front + [o] + back)| > |Trim(front)| && Trim(front) != ""
  {
    hide TrimStart, TrimEnd;
    TrimBlank(front);
    StartNotBlank(front);
    var whole, start := front + [o] + back, TrimStart(front);
    TrimStartAppend(front, [o] + back);
    assert whole == front + ([o] + back);
    TrimEndKeeps(start, o, back);
    assert start + ([o] + back) == start + [o] + back;
  }

  lemma {:induction false} TrimStartAppend(a: string, b: string)
    requires TrimStart(a) != ""
    ensures TrimStart(a + b) == TrimStart(a) + b
    decreases |a|
  {
    hide IsWhite, Blank;
    assert a != "" && (a + b)[0] == a[0];
    if IsWhite(a[0]) {
      assert (a + b)[1..] == a[1..] + b;
      TrimStartAppend(a[1..], b);
    } else {
      assert TrimStart(a) == a;
      assert TrimStart(a + b) == a + b;
    }
  }

  lemma {:induction false} TrimEndKeeps(a: string, o: char, b: string)
    requires !IsWhite(o)
    ensures |TrimEnd(a + [o] + b)| > |a|
    decreases |b|
  {
    var s := a + [o] + b;
    if b != "" && IsWhite(s[|s| - 1]) {
      TrimEndKeeps(a, o, b[..|b| - 1]);
      assert s[..|s| - 1] == a + [o] + b[..|b| - 1];
    }
  }

  /** Exactly when the law holds, for each of the operators: the first command must end outside quotes with no dangling
      escape. */
  lemma OperatorLaw(c1: string, op: string, c2: string)
    requires IsOperator(op)
    ensures Segments(c1 + op + c2) == Segments(c1) + Segments(c2) <==> CleanEnd(c1)
  {
    hide Lex, Split, Clean, EndMode, Dangling, SwallowedBy;
    if CleanEnd(c1) {
      JoinedSegments(c1, op, c2);
    } else {
      var o, t := op[0], op[1..] + c2;
      assert c1 + op + c2 == c1 + [o] + t;
      var x, more := Swallowed(c1, o, t, Outside);
      UncleanNotBlank(c1, Outside);
      SwallowedDiffers(Split(Lex(c1, Outside)), Split(Lex(c1 + [o] + t, Outside)), o, x, more, Segments(c2));
    }
  }

  lemma SwallowedDiffers(raw: seq<string>, whole: seq<string>, o: char, x: string, more: seq<string>, other: seq<string>)
    requires raw != [] && SwallowedBy(raw, whole, o, x, more) && !Blank(Last(raw)) && IsOperatorChar(o)
    ensures Clean(whole) != Clean(raw) + other
  {
    hide Trim;
    var n, last := |Clean(Init(raw))|, Last(raw) + [o] + x;
    TrimLonger(Last(raw), o, x);
    assert raw == Init(raw) + [Last(raw)];
    CleanAppend(Init(raw), [Last(raw)]);
    CleanAppend(Init(raw) + [last], more);
    CleanAppend(Init(raw), [last]);
    assert Clean([Last(raw)]) == [Trim(Last(raw))] && Clean([last]) == [Trim(last)];
    assert (Clean(raw) + other)[n] == Trim(Last(raw));
    assert Clean(whole)[n] == Trim(last);
  }

  // ── nothing is lost ──

  /** Raw segments with the operators put back between them. */
  function Interleave(raw: seq<string>, operators: seq<string>): string
    requires |raw| == |operators| + 1
  {
    if operators == [] then raw[0] else raw[0] + operators[0] + Interleave(raw[1..], operators[1..])
  }

  lemma InterleaveGlue(front: string, raw: seq<string>, operators: seq<string>)
    requires |raw| == |operators| + 1
    ensures Interleave(Glue(front, raw), operators) == front + Interleave(raw, operators)
  {
  }

  lemma OperatorsStep(s: string, m: Mode)
    requires s != ""
    ensures Operators(Lex(s, m))
         == (if Head(s, m).Operator? then [Head(s, m).text] else []) + Operators(Lex(Rest(s, m), Next(s, m)))
  {
  }

  /** The raw segments and the operators found between them concatenate back to the text that was scanned. */
  lemma {:induction false} NothingLost(s: string, m: Mode)
    ensures var tokens := Lex(s, m);
            && |Split(tokens)| == |Operators(tokens)| + 1
            && Interleave(Split(tokens), Operators(tokens)) == s
    decreases |s|
  {
    hide Lex, Split, Operators, Head, Next, Interleave, Glue;
    if s == "" {
      LoneBackslash(s, m);
      NoTokens(m);
    } else {
      var head, rest, next := Head(s, m), Rest(s, m), Next(s, m);
      NothingLost(rest, next);
      LexStep(s, m);
      OperatorsStep(s, m);
      assert s == head.text + rest;
      if head.Operator? {
        InterleaveOperator(head.text, Split(Lex(rest, next)), Operators(Lex(rest, next)));
      } else {
        assert [] + Operators(Lex(rest, next)) == Operators(Lex(rest, next));
        InterleaveGlue(head.text, Split(Lex(rest, next)), Operators(Lex(rest, next)));
      }
    }
  }

  lemma NoTokens(m: Mode)
    ensures Operators(Lex("", m)) == [] && Interleave([""], []) == ""
  {
  }

  lemma InterleaveOperator(op: string, raw: seq<string>, operators: seq<string>)
    requires |raw| == |operators| + 1
    ensures Interleave([""] + raw, [op] + operators) == op + Interleave(raw, operators)
  {
  }

  // ── a segment is one segment ──

  /** No operator outside quotes. */
  predicate Whole(s: string, m: Mode)
    decreases |s|
  {
    s == "" || (Head(s, m).Piece? && Whole(Rest(s, m), Next(s, m)))
  }

  /** A whole text is its own only raw segment. */
  lemma {:induction false} WholeIsOne(s: string, m: Mode)
    requires Whole(s, m)
    ensures Split(Lex(s, m)) == [s]
    decreases |s|
  {
    hide Lex, Split, Head, Next;
    if s == "" {
      LoneBackslash(s, m);
    } else {
      WholeIsOne(Rest(s, m), Next(s, m));
      LexStep(s, m);
      assert Head(s, m).text + Rest(s, m) == s;
    }
  }

  /** Adding whole text behind a piece gives whole text. */
  lemma WholeBehind(s: string, m: Mode, p: string)
    requires s != "" && Head(s, m).Piece? && p <= Rest(s, m) && Whole(p, Next(s, m))
    ensures Whole(Head(s, m).text + p, m)
  {
    var text := Head(s, m).text + p;
    assert s == Head(s, m).text + Rest(s, m);
    assert text <= s;
    SamePiece(s, m, text);
    assert text[|Head(s, m).text|..] == p;
  }

  /** A prefix that holds the head piece starts with the same piece. */
  lemma SamePiece(s: string, m: Mode, p: string)
    requires s != "" && Head(s, m).Piece? && p <= s && |Head(s, m).text| <= |p|
    ensures p != "" && Head(p, m) == Head(s, m) && Next(p, m) == Next(s, m)
  {
  }

  /** Every raw segment is whole: the first in the mode scanning starts in, the others outside quotes. */
  lemma {:induction false} RawWhole(s: string, m: Mode)
    ensures var raw := Split(Lex(s, m));
            raw[0] <= s && Whole(raw[0], m) && forall k :: 1 <= k < |raw| ==> Whole(raw[k], Outside)
    decreases |s|
  {
    hide Lex, Split, Head, Next, Whole;
    if s == "" {
      LoneBackslash(s, m);
      assert Whole("", m) by { WholeNothing(m); }
    } else {
      var rest := Split(Lex(Rest(s, m), Next(s, m)));
      RawWhole(Rest(s, m), Next(s, m));
      LexStep(s, m);
      if Head(s, m).Operator? {
        OperatorKeepsMode(s, m);
        assert Next(s, m) == Outside;
        WholeNothing(m);
      } else {
        WholeBehind(s, m, rest[0]);
        assert s == Head(s, m).text + Rest(s, m);
      }
    }
  }

  lemma WholeNothing(m: Mode)
    ensures Whole("", m)
  {
  }

  /** A prefix of whole text is whole. */
  lemma {:induction false} WholePrefix(s: string, m: Mode, p: string)
    requires Whole(s, m) && p <= s
    ensures Whole(p, m)
    decreases |s|
  {
    if p == "" {
    } else if |p| < |Head(s, m).text| {
      assert p == s[..1] && Head(p, m).Piece? && Rest(p, m) == "";
    } else {
      SamePiece(s, m, p);
      assert Rest(p, m) <= Rest(s, m);
      WholePrefix(Rest(s, m), Next(s, m), Rest(p, m));
    }
  }

  /** Leading white space is ordinary text. */
  lemma {:induction false} WholeTrimStart(s: string)
    requires Whole(s, Outside)
    ensures Whole(TrimStart(s), Outside)
    decreases |s|
  {
    if s != "" && IsWhite(s[0]) {
      WhiteHead(s);
      WholeTrimStart(s[1..]);
    }
  }

  lemma WhiteHead(s: string)
    requires s != "" && IsWhite(s[0])
    ensures Head(s, Outside) == Piece(s[..1]) && Next(s, Outside) == Outside && Rest(s, Outside) == s[1..]
  {
  }

  lemma WholeTrim(s: string)
    requires Whole(s, Outside)
    ensures Whole(Trim(s), Outside)
  {
    hide Whole, TrimStart, TrimEnd;
    WholeTrimStart(s);
    WholePrefix(TrimStart(s), Outside, Trim(s));
  }

  lemma {:induction false} FromRaw(raw: seq<string>, segment: string)
    requires segment in Clean(raw)
    ensures exists k :: 0 <= k < |raw| && segment == Trim(raw[k]) && segment != ""
  {
    hide Trim;
    if segment !in Cleaned(raw[0]) {
      FromRaw(raw[1..], segment);
      var k :| 0 <= k < |raw[1..]| && segment == Trim(raw[1..][k]) && segment != "";
      assert segment == Trim(raw[k + 1]);
    }
  }

  lemma SegmentWhole(command: string, segment: string)
    requires segment in Segments(command)
    ensures Whole(segment, Outside) && segment != "" && exists raw :: segment == Trim(raw)
  {
    hide Lex, Split, Trim, Whole;
    var raw := Split(Lex(command, Outside));
    FromRaw(raw, segment);
    var k :| 0 <= k < |raw| && segment == Trim(raw[k]) && segment != "";
    RawWhole(command, Outside);
    WholeTrim(raw[k]);
  }

  /** Splitting a segment again gives just that segment. */
  lemma SegmentsAreStable(command: string, segment: string)
    requires segment in Segments(command)
    ensures Segments(segment) == [segment]
  {
    hide Lex, Split, Trim, Whole;
    SegmentWhole(command, segment);
    WholeIsOne(segment, Outside);
    TrimTight(segment);
    assert [segment][1..] == [];
    assert Clean([segment]) == Cleaned(segment) + [];
  }

  // ── operator characters inside a segment ──

  /** Position `k` is read inside quotes, or as part of a backslash escape. */
  predicate Shielded(s: string, m: Mode, k: nat)
    requires k < |s|
    decreases |s|
  {
    var n := |Head(s, m).text|;
    if k < n then !m.Outside? || (s[0] == '\\' && k == 1) else Shielded(Rest(s, m), Next(s, m), k - n)
  }

  lemma {:induction false} WholeShields(s: string, m: Mode, k: nat)
    requires Whole(s, m) && k < |s| && IsOperatorChar(s[k])
    ensures Shielded(s, m, k)
    decreases |s|
  {
    var n := |Head(s, m).text|;
    if k >= n {
      assert Rest(s, m)[k - n] == s[k];
      WholeShields(Rest(s, m), Next(s, m), k - n);
    }
  }

  /** Every operator character that is left in a segment stands inside quotes or behind a backslash. */
  lemma OperatorsAreShielded(command: string, segment: string, k: nat)
    requires segment in Segments(command) && k < |segment| && IsOperatorChar(segment[k])
    ensures Shielded(segment, Outside, k)
  {
    SegmentWhole(command, segment);
    WholeShields(segment, Outside, k);
  }
}
