/** The quote-aware command splitter and the shell-command check built on it. */
module Classifier {
  import opened Wrappers
  import opened Text

  // ── the scanner as an automaton ──

  datatype Mode = Outside | SingleQuoted | DoubleQuoted

  /** A piece of the command: text that stays in its segment, or an operator that ends it. */
  datatype Token = Piece(text: string) | Operator(text: string)

  predicate IsOperatorChar(c: char) {
    c == ';' || c == '|' || c == '&'
  }

  /** The token at the head of a non-empty command. */
  function Head(s: string, m: Mode): (t: Token)
    requires s != ""
    ensures 1 <= |t.text| <= 2 && |t.text| <= |s| && t.text == s[..|t.text|]
    ensures t.Operator? ==> m.Outside?
  {
    if s[0] == '\\' && !m.SingleQuoted? then Piece(s[..if |s| > 1 then 2 else 1])
    else if m.Outside? && |s| > 1 && (s[..2] == "&&" || s[..2] == "||") then Operator(s[..2])
    else if m.Outside? && IsOperatorChar(s[0]) then Operator(s[..1])
    else Piece(s[..1])
  }

  /** The mode after the head token: only an unescaped quote that is not inside the other kind changes it. */
  function Next(s: string, m: Mode): Mode
    requires s != ""
  {
    if s[0] == '\\' && !m.SingleQuoted? then m
    else if s[0] == '\'' && !m.DoubleQuoted? then (if m.SingleQuoted? then Outside else SingleQuoted)
    else if s[0] == '"' && !m.SingleQuoted? then (if m.DoubleQuoted? then Outside else DoubleQuoted)
    else m
  }

  function Rest(s: string, m: Mode): (r: string)
    requires s != ""
    ensures |r| < |s|
  {
    s[|Head(s, m).text|..]
  }

  function Lex(s: string, m: Mode): seq<Token>
    decreases |s|
  {
    if s == "" then [] else [Head(s, m)] + Lex(Rest(s, m), Next(s, m))
  }

  /** The mode in which scanning `s` ends. */
  function EndMode(s: string, m: Mode): Mode
    decreases |s|
  {
    if s == "" then m else EndMode(Rest(s, m), Next(s, m))
  }

  /** Scanning `s` ends in a backslash that escapes nothing. */
  predicate Dangling(s: string, m: Mode)
    decreases |s|
  {
    s != "" && ((s == "\\" && !m.SingleQuoted?) || Dangling(Rest(s, m), Next(s, m)))
  }

  /** Scanning ends outside quotes with nothing left to escape. */
  predicate CleanEnd(s: string) {
    EndMode(s, Outside).Outside? && !Dangling(s, Outside)
  }

  /** The text of `front` joins the first of the raw segments. */
  function Glue(front: string, rest: seq<string>): (r: seq<string>)
    requires rest != []
    ensures r != [] && |r| == |rest| && r[0] == front + rest[0] && r[1..] == rest[1..]
  {
    [front + rest[0]] + rest[1..]
  }

  /** What one token does to the raw segments after it. */
  function SplitStep(head: Token, rest: seq<string>): (r: seq<string>)
    requires rest != []
    ensures r != []
  {
    if head.Operator? then [""] + rest else Glue(head.text, rest)
  }

  /** The raw segments: the text between operators. */
  function Split(tokens: seq<Token>): (r: seq<string>)
    ensures r != []
  {
    if tokens == [] then [""] else SplitStep(tokens[0], Split(tokens[1..]))
  }

  function Operators(tokens: seq<Token>): seq<string> {
    if tokens == [] then []
    else if tokens[0].Operator? then [tokens[0].text] + Operators(tokens[1..])
    else Operators(tokens[1..])
  }

  function Cleaned(raw: string): seq<string> {
    if Trim(raw) == "" then [] else [Trim(raw)]
  }

  /** The trimmed segments, blank ones dropped. */
  function Clean(raw: seq<string>): seq<string> {
    if raw == [] then []
    else Cleaned(raw[0]) + Clean(raw[1..])
  }

  /** What `split_unquoted_segments` returns. */
  function Segments(command: string): seq<string> {
    Clean(Split(Lex(command, Outside)))
  }

  // ── the scanner as the loop it is ──

  function ModeOf(inSingle: bool, inDouble: bool): Mode {
    if inSingle then SingleQuoted else if inDouble then DoubleQuoted else Outside
  }

  function From(s: string, i: nat): string {
    if i <= |s| then s[i..] else ""
  }

  function Upto(s: string, start: nat, i: nat): string
    requires start <= |s| && start <= i
  {
    s[start..if i <= |s| then i else |s|]
  }

  lemma LexStep(s: string, m: Mode)
    requires s != ""
    ensures Lex(s, m) == [Head(s, m)] + Lex(Rest(s, m), Next(s, m))
    ensures Split(Lex(s, m)) == SplitStep(Head(s, m), Split(Lex(Rest(s, m), Next(s, m))))
  {
  }

  lemma GlueGlue(a: string, b: string, rest: seq<string>)
    requires rest != []
    ensures Glue(a, Glue(b, rest)) == Glue(a + b, rest)
  {
    assert a + (b + rest[0]) == a + b + rest[0];
  }

  lemma GlueNothing(rest: seq<string>)
    requires rest != []
    ensures Glue("", rest) == rest
  {
    assert "" + rest[0] == rest[0];
  }

  lemma GlueOperator(a: string, rest: seq<string>)
    ensures Glue(a, [""] + rest) == [a] + rest
  {
    assert a + "" == a;
  }

  lemma PendingPiece(pending: string, s: string, m: Mode)
    requires s != "" && Head(s, m).Piece?
    ensures Glue(pending, Split(Lex(s, m)))
         == Glue(pending + Head(s, m).text, Split(Lex(Rest(s, m), Next(s, m))))
  {
    hide Lex, Split, Head, Next, Glue;
    LexStep(s, m);
    GlueGlue(pending, Head(s, m).text, Split(Lex(Rest(s, m), Next(s, m))));
  }

  lemma {:induction false} CleanAppend(a: seq<string>, b: seq<string>)
    ensures Clean(a + b) == Clean(a) + Clean(b)
  {
    hide Cleaned;
    if a == [] {
      assert a + b == b;
    } else {
      var rest := Clean(a[1..]);
      CleanAppend(a[1..], b);
      assert (a + b)[1..] == a[1..] + b && (a + b)[0] == a[0];
      assert Cleaned(a[0]) + (rest + Clean(b)) == (Cleaned(a[0]) + rest) + Clean(b);
    }
  }

  lemma PendingOperator(pending: string, s: string, m: Mode)
    requires s != "" && Head(s, m).Operator?
    ensures Clean(Glue(pending, Split(Lex(s, m))))
         == Clean([pending]) + Clean(Glue("", Split(Lex(Rest(s, m), Next(s, m)))))
  {
    hide Lex, Split, Head, Next, Clean, Glue;
    var rest := Split(Lex(Rest(s, m), Next(s, m)));
    LexStep(s, m);
    GlueOperator(pending, rest);
    GlueNothing(rest);
    CleanAppend([pending], rest);
  }

  /** Adds a segment unless it is blank. */
  function Push(segments: seq<string>, raw: string): (r: seq<string>)
    ensures r == segments + Clean([raw])
  {
    if Trim(raw) != "" then segments + [Trim(raw)] else segments
  }

  lemma AdvanceText(command: string, start: nat, i: nat, m: Mode)
    requires start <= i < |command|
    ensures var s := From(command, i);
            && s != "" && s[0] == command[i] && (|s| > 1 <==> i + 1 < |command|)
            && (|s| > 1 ==> s[1] == command[i + 1])
            && Rest(s, m) == From(command, i + |Head(s, m).text|)
            && Upto(command, start, i) + Head(s, m).text == Upto(command, start, i + |Head(s, m).text|)
  {
    hide Head;
    var s, n := command[i..], |Head(command[i..], m).text|;
    assert s[..n] == command[i..i + n];
    assert command[start..i] + command[i..i + n] == command[start..i + n];
  }

  /** What the loop still owes: the segments of the pending text and the rest of the command. */
  ghost function Owed(command: string, start: nat, i: nat, m: Mode): seq<string>
    requires start <= i && start <= |command|
  {
    Clean(Glue(Upto(command, start, i), Split(Lex(From(command, i), m))))
  }

  lemma OwedAtStart(command: string)
    ensures Owed(command, 0, 0, Outside) == Segments(command)
  {
    assert From(command, 0) == command && Upto(command, 0, 0) == "";
    GlueNothing(Split(Lex(command, Outside)));
  }

  lemma OwedAtEnd(command: string, start: nat, i: nat, m: Mode)
    requires start <= |command| <= i
    ensures Owed(command, start, i, m) == Clean([command[start..]])
  {
    assert From(command, i) == "" && Upto(command, start, i) == command[start..];
    assert Split(Lex("", m)) == [""];
    assert command[start..] + "" == command[start..];
    assert Glue(command[start..], [""]) == [command[start..]];
  }

  /** One pass of the loop: a piece joins the pending text, an operator closes it. */
  lemma OwedStep(segments: seq<string>, command: string, start: nat, i: nat, m: Mode)
    requires start <= i < |command|
    ensures var s, j := From(command, i), i + |Head(From(command, i), m).text|;
            && (Head(s, m).Piece? ==> Owed(command, start, i, m) == Owed(command, start, j, Next(s, m)))
            && (Head(s, m).Operator? ==>
                  && j <= |command|
                  && segments + Owed(command, start, i, m)
                  == Push(segments, command[start..i]) + Owed(command, j, j, Next(s, m)))
  {
    hide Lex, Split, Clean, Push;
    var s := From(command, i);
    var j := i + |Head(s, m).text|;
    AdvanceText(command, start, i, m);
    if Head(s, m).Piece? {
      PendingPiece(Upto(command, start, i), s, m);
    } else {
      PendingOperator(Upto(command, start, i), s, m);
      assert Upto(command, j, j) == "";
      assert Owed(command, start, i, m) == Clean([command[start..i]]) + Owed(command, j, j, Next(s, m));
      assert segments + (Clean([command[start..i]]) + Owed(command, j, j, Next(s, m)))
          == (segments + Clean([command[start..i]])) + Owed(command, j, j, Next(s, m));
    }
  }

  /** Running past the end of the command changes nothing. */
  lemma OwedBeyond(command: string, start: nat, m: Mode)
    requires start <= |command|
    ensures Owed(command, start, |command| + 1, m) == Owed(command, start, |command|, m)
  {
  }

  /** Which token and mode the characters at `i` select, in the order the loop tests them. */
  lemma HeadCases(command: string, i: nat, m: Mode)
    requires i < |command|
    ensures var s, ch := From(command, i), command[i];
            var n := |Head(s, m).text|;
            if ch == '\\' && !m.SingleQuoted? then
              Head(s, m).Piece? && Next(s, m) == m && n == (if i + 1 < |command| then 2 else 1)
            else if ch == '\'' && !m.DoubleQuoted? then
              Head(s, m).Piece? && n == 1 && Next(s, m) == if m.SingleQuoted? then Outside else SingleQuoted
            else if ch == '"' && !m.SingleQuoted? then
              Head(s, m).Piece? && n == 1 && Next(s, m) == if m.DoubleQuoted? then Outside else DoubleQuoted
            else if m.Outside? && i + 1 < |command|
                    && ((ch == '&' && command[i + 1] == '&') || (ch == '|' && command[i + 1] == '|')) then
              Head(s, m).Operator? && n == 2 && Next(s, m) == m
            else if m.Outside? && IsOperatorChar(ch) then
              Head(s, m).Operator? && n == 1 && Next(s, m) == m
            else
              Head(s, m).Piece? && n == 1 && Next(s, m) == m
  {
  }

  method SplitUnquotedSegments(command: string) returns (segments: seq<string>)
    ensures segments == Segments(command)
  {
    hide Owed, Segments, Clean, Push, Head, Next, From;
    var len := |command|;
    segments := [];
    var start: nat, i: nat := 0, 0;
    var inSingle, inDouble := false, false;
    OwedAtStart(command);
    while i < len
      invariant start <= i && start <= len && !(inSingle && inDouble)
      invariant segments + Owed(command, start, i, ModeOf(inSingle, inDouble)) == Segments(command)
      decreases len - i
    {
      var ch := command[i];
      HeadCases(command, i, ModeOf(inSingle, inDouble));
      OwedStep(segments, command, start, i, ModeOf(inSingle, inDouble));
      OwedBeyond(command, start, ModeOf(inSingle, inDouble));
      if ch == '\\' && !inSingle {
        i := i + 2;
        continue;
      }
      if ch == '\'' && !inDouble {
        inSingle := !inSingle;
        i := i + 1;
        continue;
      }
      if ch == '"' && !inSingle {
        inDouble := !inDouble;
        i := i + 1;
        continue;
      }
      if !inSingle && !inDouble {
        if i + 1 < len && ((ch == '&' && command[i + 1] == '&') || (ch == '|' && command[i + 1] == '|')) {
          segments := Push(segments, command[start..i]);
          start := i + 2;
          i := i + 2;
          continue;
        }
        if ch == ';' || ch == '|' || ch == '&' {
          segments := Push(segments, command[start..i]);
          start := i + 1;
          i := i + 1;
          continue;
        }
      }
      i := i + 1;
    }
    OwedAtEnd(command, start, i, ModeOf(inSingle, inDouble));
    segments := Push(segments, command[start..]);
  }
}
