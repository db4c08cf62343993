/** What a condition means, said of its text and of the facts alone. */
module ConditionMeaning {
  import opened Wrappers
  import opened JsonValues
  import opened Text
  import C = Condition

  // ── names ──

  /** The names that are not looked up in the task data. */
  const BUILT_INS := ["approved", "denied", "needs_changes", "timeout", "has_high_risk_tools", "all_tools_done", "all_done"]

  /** Some planned tool is registered with high risk. */
  ghost predicate PlansHighRisk(data: Fields, tools: map<string, C.RiskLevel>) {
    && "planned_tools" in data && data["planned_tools"].Arr?
    && exists tool :: tool in tools && tools[tool] == C.High && Str(tool) in data["planned_tools"].items
  }

  lemma WordEvaluates(name: string, facts: C.Facts)
    requires C.Word(name)
    ensures C.Evaluate(name, facts) == Ok(C.EvalIdent(name, facts))
  {
    hide C.Parse, C.EvalIdent;
    C.AtomRoundTrip(C.Ident(name));
  }

  /** A word that is no built-in name is true exactly when the task data holds `true` under it. */
  lemma WordMeans(name: string, facts: C.Facts)
    requires C.Word(name) && name !in BUILT_INS
    ensures C.Evaluate(name, facts) == Ok(name in facts.data && facts.data[name] == Bool(true))
  {
    hide C.Evaluate;
    WordEvaluates(name, facts);
  }

  lemma AnswerWords()
    ensures C.Word("approved") && C.Word("denied") && C.Word("needs_changes") && C.Word("timeout")
  {
  }

  lemma OtherWords()
    ensures C.Word("has_high_risk_tools") && C.Word("all_tools_done") && C.Word("all_done")
  {
  }

  /** The three names that ask for an answer to the pending approval. */
  lemma AnswerMeans(facts: C.Facts)
    ensures C.Evaluate("approved", facts) == Ok(facts.approval.Some? && facts.approval.value.status == C.Approved)
    ensures C.Evaluate("denied", facts) == Ok(facts.approval.Some? && facts.approval.value.status == C.Denied)
    ensures C.Evaluate("needs_changes", facts)
         == Ok(facts.approval.Some? && facts.approval.value.status == C.RequestChanges)
  {
    hide C.Evaluate, C.Word;
    AnswerWords();
    WordEvaluates("approved", facts);
    WordEvaluates("denied", facts);
    WordEvaluates("needs_changes", facts);
  }

  /** An approval has timed out when the clock is past its time. */
  lemma TimeoutMeans(facts: C.Facts)
    ensures C.Evaluate("timeout", facts) == Ok(facts.approval.Some? && facts.approval.value.timeoutAt < facts.now)
  {
    hide C.Evaluate, C.Word;
    AnswerWords();
    WordEvaluates("timeout", facts);
  }

  /** High risk is a matter of the planned tools and of the registry. */
  lemma HighRiskMeans(facts: C.Facts)
    ensures C.Evaluate("has_high_risk_tools", facts) == Ok(PlansHighRisk(facts.data, facts.tools))
  {
    hide C.Evaluate, C.Word;
    OtherWords();
    WordEvaluates("has_high_risk_tools", facts);
    if PlansHighRisk(facts.data, facts.tools) {
      var items := facts.data["planned_tools"].items;
      var tool :| tool in facts.tools && facts.tools[tool] == C.High && Str(tool) in items;
      var i :| 0 <= i < |items| && items[i] == Str(tool);
      assert C.IsHighRisk(items[i], facts.tools);
    }
  }

  /** No list of pending tools counts as all done, and so does an empty one. */
  lemma AllToolsDoneMeans(facts: C.Facts)
    ensures C.Evaluate("all_tools_done", facts)
         == Ok("pending_tools" in facts.data && facts.data["pending_tools"].Arr? ==> facts.data["pending_tools"] == Arr([]))
  {
    hide C.Evaluate, C.Word;
    OtherWords();
    WordEvaluates("all_tools_done", facts);
  }

  lemma AllDoneMeans(facts: C.Facts)
    ensures C.Evaluate("all_done", facts)
         == Ok("agent_status" in facts.data && facts.data["agent_status"] == Str("completed"))
  {
    hide C.Evaluate, C.Word;
    OtherWords();
    WordEvaluates("all_done", facts);
  }

  // ── comparisons ──

  /** The data holds this text under the key; a key without text counts as holding the empty one. */
  predicate HoldsText(data: Fields, key: string, text: string) {
    (key in data && data[key] == Str(text)) || (text == "" && !(key in data && data[key].Str?))
  }

  /** All the characters of `s` from `lo` up to `hi` are double quotes. */
  predicate QuotesIn(s: string, lo: nat, hi: nat) {
    hi <= |s| && forall k :: lo <= k < hi ==> s[k] == '"'
  }

  /** `core` is what is left of `text` when the double quotes at its ends are taken away. */
  ghost predicate Unquotes(text: string, core: string) {
    exists i: nat, j: nat :: CoreAt(text, core, i, j)
  }

  predicate CoreAt(text: string, core: string, i: nat, j: nat) {
    && i <= j <= |text| && text[i..j] == core && QuotesIn(text, 0, i) && QuotesIn(text, j, |text|)
    && (core != "" ==> core[0] != '"' && core[|core| - 1] != '"')
  }

  lemma {:induction false} DropLeadingExactly(s: string) returns (i: nat)
    ensures i <= |s| && C.DropLeading(s, '"') == s[i..] && QuotesIn(s, 0, i) && (i < |s| ==> s[i] != '"')
  {
    if s != "" && s[0] == '"' {
      var rest := DropLeadingExactly(s[1..]);
      i := rest + 1;
      assert forall k :: 0 < k < i ==> s[k] == s[1..][k - 1];
    } else {
      i := 0;
    }
  }

  lemma {:induction false} DropTrailingExactly(s: string) returns (j: nat)
    ensures j <= |s| && C.DropTrailing(s, '"') == s[..j] && QuotesIn(s, j, |s|) && (j > 0 ==> s[j - 1] != '"')
  {
    if s != "" && s[|s| - 1] == '"' {
      var n := |s| - 1;
      j := DropTrailingExactly(s[..n]);
      assert forall k :: j <= k < n ==> s[k] == s[..n][k];
    } else {
      j := |s|;
    }
  }

  /** Trimming quotes finds that core, and there is only one. */
  lemma TrimQuotes(text: string, core: string)
    requires Unquotes(text, core)
    ensures C.TrimMatches(text, '"') == core
  {
    hide C.DropLeading, C.DropTrailing;
    var i: nat, j: nat :| CoreAt(text, core, i, j);
    var a := DropLeadingExactly(text);
    var b := DropTrailingExactly(text[a..]);
    assert text[a..][..b] == text[a..a + b];
    if core == "" {
      assert forall k :: 0 <= k < |text| ==> text[k] == '"';
      assert a == |text|;
    } else {
      assert core[0] == text[i] && core[|core| - 1] == text[j - 1];
      assert a == i;
      assert b > 0 ==> text[a..][b - 1] == text[a + b - 1];
      assert forall k :: b <= k < |text| - a ==> text[a..][k] == text[a + k];
      assert a + b == j;
    }
  }

  // ── any text ──

  lemma BlankEvaluates(c: string, facts: C.Facts)
    requires Trim(c) == ""
    ensures C.Evaluate(c, facts) == C.Evaluate("", facts)
  {
    assert Blank(c) by { TrimBlank(c); }
  }

  /** White space around a condition does not matter. */
  lemma OuterSpace(c: string, facts: C.Facts)
    ensures C.Evaluate(c, facts) == C.Evaluate(Trim(c), facts)
  {
    hide C.ParseTight, C.EvalExpr, Trim, Blank;
    if Trim(c) == "" {
      BlankEvaluates(c, facts);
    } else {
      TrimTight(Trim(c));
    }
  }

  lemma Evaluated(c: string, facts: C.Facts)
    requires !Blank(c)
    ensures C.Parse(Trim(c)).Ok? && C.Evaluate(c, facts) == Ok(C.EvalExpr(C.Parse(Trim(c)).value, facts))
  {
    hide C.ParseTight, C.EvalExpr, Trim, Blank;
    TrimBlank(c);
    TrimTight(Trim(c));
  }

  lemma TightEvaluated(c: string, facts: C.Facts)
    requires Tight(c)
    ensures C.ParseTight(c).Ok? && C.Evaluate(c, facts) == Ok(C.EvalExpr(C.ParseTight(c).value, facts))
  {
    hide C.ParseTight, C.EvalExpr;
    TrimTight(c);
  }

  /** The text holds the pattern first where `front` ends. */
  ghost predicate CutsAt(front: string, pattern: string, back: string) {
    Tight(front + pattern + back) && forall j: nat :: j < |front| ==> !OccursAt(front + pattern + back, pattern, j)
  }

  lemma FoundThere(front: string, pattern: string, back: string)
    requires CutsAt(front, pattern, back)
    ensures var c := front + pattern + back;
            && Tight(c) && Find(c, pattern) == Some(|front|)
            && c[..|front|] == front && c[|front| + |pattern|..] == back
  {
    hide Tight;
    assert OccursAt(front + pattern + back, pattern, |front|);
  }

  lemma BlankEnds(left: string, pattern: string, right: string)
    requires |pattern| > 0 && pattern[0] == ' ' && pattern[|pattern| - 1] == ' '
    ensures var c := left + pattern + right;
            (Blank(left) ==> IsWhite(c[0])) && (Blank(right) ==> IsWhite(c[|c| - 1]))
  {
    var c := left + pattern + right;
    assert c[0] == (if left == "" then pattern[0] else left[0]);
    assert c[|c| - 1] == (if right == "" then pattern[|pattern| - 1] else right[|right| - 1]);
  }

  /** Neither operand is blank: the whole text has no white space at its ends. */
  lemma BothSides(left: string, pattern: string, right: string)
    requires Tight(left + pattern + right) && |pattern| > 0 && pattern[0] == ' ' && pattern[|pattern| - 1] == ' '
    ensures !Blank(left) && !Blank(right)
  {
    hide Blank, IsWhite;
    BlankEnds(left, pattern, right);
  }

  lemma OrOperands(c: string, i: nat)
    requires Tight(c) && OccursAt(c, " OR ", i)
    ensures C.Front(c, " OR ", i) == Trim(c[..i]) && C.Rest(c, " OR ", i) == Trim(c[i + 4..])
  {
    hide Trim, Tight;
  }

  lemma AndOperands(c: string, i: nat)
    requires Tight(c) && OccursAt(c, " AND ", i)
    ensures C.Front(c, " AND ", i) == Trim(c[..i]) && C.Rest(c, " AND ", i) == Trim(c[i + 5..])
  {
    hide Trim, Tight;
  }

  lemma NotOperand(inner: string)
    requires Tight("NOT " + inner) && OccursAt("NOT " + inner, "NOT ", 0)
    ensures C.Rest("NOT " + inner, "NOT ", 0) == Trim(inner)
  {
    hide Trim, Tight;
    assert ("NOT " + inner)[4..] == inner;
  }

  /** The weakest operator is OR: the first one cuts the text into two conditions. */
  lemma OrMeans(left: string, right: string, facts: C.Facts)
    requires CutsAt(left, " OR ", right)
    ensures C.Evaluate(left, facts).Ok? && C.Evaluate(right, facts).Ok?
    ensures C.Evaluate(left + " OR " + right, facts)
         == Ok(C.Evaluate(left, facts).value || C.Evaluate(right, facts).value)
  {
    hide C.ParseTight, C.ParseConjunct, C.Parse, C.Evaluate, C.Front, C.Rest, Trim, Find, Blank, Tight, CutsAt;
    FoundThere(left, " OR ", right);
    BothSides(left, " OR ", right);
    C.CutOr(left + " OR " + right, |left|);
    OrOperands(left + " OR " + right, |left|);
    Evaluated(left, facts);
    Evaluated(right, facts);
    TightEvaluated(left + " OR " + right, facts);
  }

  /** Then AND. */
  lemma AndMeans(left: string, right: string, facts: C.Facts)
    requires CutsAt(left, " AND ", right) && !Occurs(left + " AND " + right, " OR ")
    ensures C.Evaluate(left, facts).Ok? && C.Evaluate(right, facts).Ok?
    ensures C.Evaluate(left + " AND " + right, facts)
         == Ok(C.Evaluate(left, facts).value && C.Evaluate(right, facts).value)
  {
    hide C.ParseTight, C.ParseConjunct, C.Parse, C.Evaluate, C.Front, C.Rest, Trim, Find, Blank, Tight, CutsAt, Occurs;
    FoundThere(left, " AND ", right);
    BothSides(left, " AND ", right);
    C.CutNoOr(left + " AND " + right);
    C.CutAnd(left + " AND " + right, |left|);
    AndOperands(left + " AND " + right, |left|);
    Evaluated(left, facts);
    Evaluated(right, facts);
    TightEvaluated(left + " AND " + right, facts);
  }

  /** Neither binary operator occurs. */
  ghost predicate Unjoined(c: string) {
    Tight(c) && !Occurs(c, " OR ") && !Occurs(c, " AND ")
  }

  /** NOT is read only in front. */
  lemma NotMeans(inner: string, facts: C.Facts)
    requires Unjoined("NOT " + inner)
    ensures C.Evaluate(inner, facts).Ok?
    ensures C.Evaluate("NOT " + inner, facts) == Ok(!C.Evaluate(inner, facts).value)
  {
    hide C.ParseTight, C.ParseConjunct, C.Parse, C.Evaluate, C.Front, C.Rest, Trim, Blank, Occurs;
    NotBlankBehind(inner);
    C.CutNoOr("NOT " + inner);
    C.CutNoAnd("NOT " + inner);
    NotOperand(inner);
    Evaluated(inner, facts);
    TightEvaluated("NOT " + inner, facts);
  }

  lemma NotBlankBehind(inner: string)
    requires Tight("NOT " + inner)
    ensures !Blank(inner) && OccursAt("NOT " + inner, "NOT ", 0)
  {
    var c := "NOT " + inner;
    assert c[|c| - 1] == (if inner == "" then ' ' else inner[|inner| - 1]);
    assert c[..4] == "NOT ";
  }

  lemma CutAtom(c: string, facts: C.Facts)
    requires Unjoined(c) && !OccursAt(c, "NOT ", 0)
    ensures C.Evaluate(c, facts) == Ok(C.EvalExpr(C.ParseAtom(c), facts))
  {
    hide C.ParseAtom, C.EvalExpr, C.Evaluate, C.ParseTight, C.ParseConjunct, Occurs, Tight, Trim;
    TightEvaluated(c, facts);
    assert Find(c, " OR ").None? && Find(c, " AND ").None?;
    C.CutNoOr(c);
    C.CutNoAnd(c);
  }

  /** Then `!=`: the key is trimmed, the value trimmed and unquoted. */
  lemma NeMeans(left: string, right: string, core: string, facts: C.Facts)
    requires Unjoined(left + " != " + right) && !OccursAt(left + " != " + right, "NOT ", 0)
    requires CutsAt(left, " != ", right) && Unquotes(Trim(right), core)
    ensures C.Evaluate(left + " != " + right, facts) == Ok(!HoldsText(facts.data, Trim(left), core))
  {
    hide C.Evaluate, C.ParseAtom, Find, Trim, Unquotes, CutsAt, Unjoined, OccursAt, C.TrimMatches;
    FoundThere(left, " != ", right);
    TrimQuotes(Trim(right), core);
    CutAtom(left + " != " + right, facts);
    C.AtomNe(left + " != " + right, |left|);
  }

  /** Then `==`. */
  lemma EqMeans(left: string, right: string, core: string, facts: C.Facts)
    requires Unjoined(left + " == " + right) && !OccursAt(left + " == " + right, "NOT ", 0)
    requires !Occurs(left + " == " + right, " != ")
    requires CutsAt(left, " == ", right) && Unquotes(Trim(right), core)
    ensures C.Evaluate(left + " == " + right, facts) == Ok(HoldsText(facts.data, Trim(left), core))
  {
    hide C.Evaluate, C.ParseAtom, Find, Trim, Unquotes, CutsAt, Unjoined, OccursAt, C.TrimMatches, Occurs;
    FoundThere(left, " == ", right);
    TrimQuotes(Trim(right), core);
    CutAtom(left + " == " + right, facts);
    assert Find(left + " == " + right, " != ").None?;
    C.AtomEq(left + " == " + right, |left|);
  }

  /** Anything else is one name, spaces inside it included. */
  lemma NameMeans(c: string, facts: C.Facts)
    requires Unjoined(c) && !OccursAt(c, "NOT ", 0) && !Occurs(c, " != ") && !Occurs(c, " == ") && c !in BUILT_INS
    ensures C.Evaluate(c, facts) == Ok(c in facts.data && facts.data[c] == Bool(true))
  {
    hide C.Evaluate, Unjoined, OccursAt, Occurs;
    CutAtom(c, facts);
    assert Find(c, " != ").None? && Find(c, " == ").None?;
    assert C.ParseAtom(c) == C.Ident(c);
  }

  // ── canonical comparisons ──

  lemma PrintedComparison(key: string, value: string)
    ensures C.Print(C.Ne(key, value)) == key + " != \"" + value + "\""
    ensures C.Print(C.Eq(key, value)) == key + " == \"" + value + "\""
  {
    C.OperatorTexts();
    assert " != " + ("\"" + value + "\"") == " != \"" + value + "\"";
    assert " == " + ("\"" + value + "\"") == " == \"" + value + "\"";
  }

  lemma AtomEvaluates(e: C.CondExpr, facts: C.Facts)
    requires C.CanonicalAtom(e)
    ensures C.Evaluate(C.Print(e), facts) == Ok(C.EvalExpr(e, facts))
  {
    hide C.Parse, C.EvalExpr, C.Print, C.CanonicalAtom;
    C.AtomRoundTrip(e);
  }

  /** A comparison with a quoted value, as flow definitions write it. */
  lemma ComparisonMeans(key: string, value: string, facts: C.Facts)
    requires C.Word(key) && C.Quotable(value)
    ensures C.Evaluate(key + " != \"" + value + "\"", facts) == Ok(!HoldsText(facts.data, key, value))
    ensures !Occurs(value, " != ") ==>
              C.Evaluate(key + " == \"" + value + "\"", facts) == Ok(HoldsText(facts.data, key, value))
  {
    hide C.Evaluate, C.Word, C.Quotable, C.Print, Occurs;
    C.OperatorTexts();
    PrintedComparison(key, value);
    AtomEvaluates(C.Ne(key, value), facts);
    if !Occurs(value, " != ") { AtomEvaluates(C.Eq(key, value), facts); }
  }
}
