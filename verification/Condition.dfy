/** The condition language that decides every non-automatic transition. */
module Condition {
  import opened Wrappers
  import opened JsonValues
  import opened Text

  datatype CondExpr =
    | Ident(name: string)
    | Eq(key: string, value: string)
    | Ne(key: string, value: string)
    | And(left: CondExpr, right: CondExpr)
    | Or(left: CondExpr, right: CondExpr)
    | Not(inner: CondExpr)

  datatype CondError = EmptyCondition

  datatype ApprovalStatus = Pending | Approved | Denied | RequestChanges | Expired
  datatype Approval = Approval(status: ApprovalStatus, timeoutAt: int)
  datatype RiskLevel = Low | Medium | High

  /** What an evaluation reads: the task's data, the pending approval, the clock and the tool registry. */
  datatype Facts = Facts(data: Fields, approval: Option<Approval>, now: int, tools: map<string, RiskLevel>)

  // ── parsing ──

  function DropLeading(s: string, c: char): (r: string)
    ensures |r| <= |s|
    ensures r != "" ==> r[0] != c && r[|r| - 1] == s[|s| - 1]
  {
    if s != "" && s[0] == c then DropLeading(s[1..], c) else s
  }

  function DropTrailing(s: string, c: char): (r: string)
    ensures |r| <= |s|
    ensures r != "" ==> r[|r| - 1] != c && r[0] == s[0]
  {
    if s != "" && s[|s| - 1] == c then DropTrailing(s[..|s| - 1], c) else s
  }

  function TrimMatches(s: string, c: char): (r: string)
    ensures r != "" ==> r[0] != c && r[|r| - 1] != c
  {
    DropTrailing(DropLeading(s, c), c)
  }

  function Negate(inner: Result<CondExpr, CondError>): Result<CondExpr, CondError> {
    if inner.Err? then inner else Ok(Not(inner.value))
  }

  function JoinOr(left: Result<CondExpr, CondError>, right: Result<CondExpr, CondError>): Result<CondExpr, CondError> {
    if left.Err? then left else if right.Err? then right else Ok(Or(left.value, right.value))
  }

  function JoinAnd(left: Result<CondExpr, CondError>, right: Result<CondExpr, CondError>): Result<CondExpr, CondError> {
    if left.Err? then left else if right.Err? then right else Ok(And(left.value, right.value))
  }

  /** The operand before a pattern found at `i`: never blank, because a tight text starts with something. */
  function Front(c: string, pattern: string, i: nat): (r: string)
    requires Tight(c) && pattern != "" && OccursAt(c, pattern, i) && pattern[0] == ' '
    ensures Tight(r) && |r| < |c| && r == Trim(c[..i])
  {
    assert c[i..i + |pattern|][0] == c[i];
    TrimKeeps(c[..i], 0);
    Trim(c[..i])
  }

  /** The operand after a pattern found at `i`: never blank, because a tight text ends in something. */
  function Rest(c: string, pattern: string, i: nat): (r: string)
    requires Tight(c) && pattern != "" && OccursAt(c, pattern, i) && pattern[|pattern| - 1] == ' '
    ensures Tight(r) && |r| < |c| && r == Trim(c[i + |pattern|..])
  {
    assert c[i..i + |pattern|][|pattern| - 1] == c[i + |pattern| - 1];
    TrimKeeps(c[i + |pattern|..], |c| - i - |pattern| - 1);
    Trim(c[i + |pattern|..])
  }

  /** Parsing fails on blank text only: no recursive call ever sees a blank operand. */
  function Parse(condition: string): (r: Result<CondExpr, CondError>)
    ensures r.Err? <==> Blank(condition)
    decreases |condition|, 2
  {
    TrimBlank(condition);
    var c := Trim(condition);
    if c == "" then Err(EmptyCondition) else ParseTight(c)
  }

  /** OR binds weakest, then AND, then NOT, then a comparison. */
  function ParseTight(c: string): (r: Result<CondExpr, CondError>)
    requires Tight(c)
    ensures r.Ok?
    decreases |c|, 1
  {
    match Find(c, " OR ")
    case Some(i) => JoinOr(Parse(Front(c, " OR ", i)), Parse(Rest(c, " OR ", i)))
    case None => ParseConjunct(c)
  }

  function ParseConjunct(c: string): (r: Result<CondExpr, CondError>)
    requires Tight(c)
    ensures r.Ok?
    decreases |c|, 0
  {
    match Find(c, " AND ")
    case Some(i) => JoinAnd(Parse(Front(c, " AND ", i)), Parse(Rest(c, " AND ", i)))
    case None => if OccursAt(c, "NOT ", 0) then Negate(Parse(Rest(c, "NOT ", 0))) else Ok(ParseAtom(c))
  }

  /** The value of a comparison: what follows the operator, trimmed, then the quotes at its ends taken away. */
  function ValueAfter(c: string, op: string, i: nat): string
    requires OccursAt(c, op, i)
  {
    TrimMatches(Trim(c[i + |op|..]), '"')
  }

  function ParseAtom(c: string): (e: CondExpr)
    ensures e.Ident? || e.Eq? || e.Ne?
  {
    match Find(c, " != ")
    case Some(i) => Ne(Trim(c[..i]), ValueAfter(c, " != ", i))
    case None =>
      match Find(c, " == ")
      case Some(i) => Eq(Trim(c[..i]), ValueAfter(c, " == ", i))
      case None => Ident(c)
  }

  lemma AtomUnquoted(c: string)
    ensures var e := ParseAtom(c);
            !e.Ident? && e.value != "" ==> e.value[0] != '"' && e.value[|e.value| - 1] != '"'
  {
    hide Trim, TrimMatches;
  }

  // ── evaluation ──

  function AsStr(v: Option<Json>): Option<string> {
    if v.Some? && v.value.Str? then Some(v.value.s) else None
  }

  function AsItems(v: Option<Json>): Option<seq<Json>> {
    if v.Some? && v.value.Arr? then Some(v.value.items) else None
  }

  function Lookup(data: Fields, key: string): Option<Json> {
    if key in data then Some(data[key]) else None
  }

  predicate IsHighRisk(tool: Json, tools: map<string, RiskLevel>) {
    tool.Str? && tool.s in tools && tools[tool.s].High?
  }

  predicate ApprovalIs(facts: Facts, status: ApprovalStatus) {
    facts.approval.Some? && facts.approval.value.status == status
  }

  /** Built-in names come first, then booleans in the task data; anything unknown is false. */
  predicate EvalIdent(name: string, facts: Facts) {
    if name == "approved" then ApprovalIs(facts, Approved)
    else if name == "denied" then ApprovalIs(facts, Denied)
    else if name == "needs_changes" then ApprovalIs(facts, RequestChanges)
    else if name == "timeout" then facts.approval.Some? && facts.now > facts.approval.value.timeoutAt
    else if name == "has_high_risk_tools" then
      var planned := AsItems(Lookup(facts.data, "planned_tools")).GetOr([]);
      exists i :: 0 <= i < |planned| && IsHighRisk(planned[i], facts.tools)
    else if name == "all_tools_done" then
      var pending := AsItems(Lookup(facts.data, "pending_tools"));
      pending.Some? ==> pending.value == []
    else if name == "all_done" then AsStr(Lookup(facts.data, "agent_status")) == Some("completed")
    else
      var v := Lookup(facts.data, name);
      v.Some? && v.value.Bool? && v.value.b
  }

  predicate EvalExpr(expr: CondExpr, facts: Facts) {
    match expr
    case Ident(name) => EvalIdent(name, facts)
    case Eq(key, value) => AsStr(Lookup(facts.data, key)).GetOr("") == value
    case Ne(key, value) => AsStr(Lookup(facts.data, key)).GetOr("") != value
    case And(left, right) => EvalExpr(left, facts) && EvalExpr(right, facts)
    case Or(left, right) => EvalExpr(left, facts) || EvalExpr(right, facts)
    case Not(inner) => !EvalExpr(inner, facts)
  }

  /** Evaluation is total except on blank text. */
  function Evaluate(condition: string, facts: Facts): (r: Result<bool, CondError>)
    ensures r.Err? <==> Blank(condition)
  {
    match Parse(condition)
    case Ok(expr) => Ok(EvalExpr(expr, facts))
    case Err(e) => Err(e)
  }

  // ── printing ──

  function Print(e: CondExpr): string {
    match e
    case Ident(name) => name
    case Eq(key, value) => key + Spaced("==") + Quoted(value)
    case Ne(key, value) => key + Spaced("!=") + Quoted(value)
    case And(left, right) => Print(left) + Spaced("AND") + Print(right)
    case Or(left, right) => Print(left) + Spaced("OR") + Print(right)
    case Not(inner) => "NOT " + Print(inner)
  }

  /** An identifier the grammar can carry: no white space and none of the operator words. */
  predicate Word(w: string) {
    SpaceFree(w) && w != "OR" && w != "AND" && w != "NOT" && w != "==" && w != "!="
  }

  /** A value that survives quoting: no quote at either end and no operator between spaces inside it. */
  ghost predicate Quotable(v: string) {
    && (v != "" ==> v[0] != '"' && v[|v| - 1] != '"')
    && !Occurs(v, Spaced("OR")) && !Occurs(v, Spaced("AND"))
  }

  ghost predicate CanonicalAtom(e: CondExpr) {
    match e
    case Ident(name) => Word(name)
    case Eq(key, value) => Word(key) && Quotable(value) && !Occurs(value, Spaced("!="))
    case Ne(key, value) => Word(key) && Quotable(value)
    case _ => false
  }

  ghost predicate CanonicalNot(e: CondExpr) {
    if e.Not? then CanonicalNot(e.inner) else CanonicalAtom(e)
  }

  ghost predicate CanonicalAnd(e: CondExpr) {
    if e.And? then CanonicalNot(e.left) && CanonicalAnd(e.right) else CanonicalNot(e)
  }

  /** Right-nested OR of right-nested AND of NOT-chains over atoms. */
  ghost predicate Canonical(e: CondExpr) {
    if e.Or? then CanonicalAnd(e.left) && Canonical(e.right) else CanonicalAnd(e)
  }

  // ── where the parser can cut a printed text ──

  function Quoted(v: string): (r: string)
    ensures |r| == |v| + 2
  {
    "\"" + v + "\""
  }

  lemma QuotedFree(v: string, op: string)
    requires SpaceFree(op) && '"' !in op && !Occurs(v, Spaced(op))
    ensures Free(Quoted(v), op)
  {
    var padded, pattern := Spaced(Quoted(v)), Spaced(op);
    forall i: nat ensures !OccursAt(padded, pattern, i) {
      if OccursAt(padded, pattern, i) {
        QuotedOccurrence(v, op, i);
      }
    }
  }

  lemma QuotedOccurrence(v: string, op: string, i: nat)
    requires SpaceFree(op) && '"' !in op && OccursAt(Spaced(Quoted(v)), Spaced(op), i)
    ensures Occurs(v, Spaced(op))
  {
    var padded, pattern := Spaced(Quoted(v)), Spaced(op);
    var cut := padded[i..i + |pattern|];
    assert padded[1] == '"' && padded[|v| + 2] == '"';
    assert padded[2..|v| + 2] == v;
    assert forall m :: i <= m < i + |pattern| ==> padded[m] == cut[m - i] && cut[m - i] != '"';
    assert v[i - 2..i - 2 + |pattern|] == cut;
    assert OccursAt(v, pattern, i - 2);
  }

  /** Three parts joined by `op` are free of any other operator all three are free of. */
  lemma TripleFree(left: string, op: string, right: string, other: string)
    requires SpaceFree(op) && SpaceFree(other) && op != other && Free(left, other) && Free(right, other)
    ensures Free(left + Spaced(op) + right, other)
  {
    WordFree(op, other);
    FreeJoin(op, right, other);
    FreeJoin(left, op + " " + right, other);
    assert left + Spaced(op) + right == left + " " + (op + " " + right);
  }

  lemma AtomFree(e: CondExpr, op: string)
    requires CanonicalAtom(e) && (op == "OR" || op == "AND" || (op == "!=" && !e.Ne?))
    ensures Free(Print(e), op)
  {
    match e {
      case Ident(name) => WordFree(name, op);
      case Eq(key, value) =>
        WordFree(key, op);
        QuotedFree(value, op);
        TripleFree(key, "==", Quoted(value), op);
      case Ne(key, value) =>
        WordFree(key, op);
        QuotedFree(value, op);
        TripleFree(key, "!=", Quoted(value), op);
    }
  }

  lemma {:induction false} NotFree(e: CondExpr, op: string)
    requires CanonicalNot(e) && (op == "OR" || op == "AND")
    ensures Free(Print(e), op)
  {
    if e.Not? {
      NotFree(e.inner, op);
      WordFree("NOT", op);
      FreeJoin("NOT", Print(e.inner), op);
      assert Print(e) == "NOT" + " " + Print(e.inner);
    } else {
      AtomFree(e, op);
    }
  }

  lemma {:induction false} AndFree(e: CondExpr)
    requires CanonicalAnd(e)
    ensures Free(Print(e), "OR")
  {
    if e.And? {
      NotFree(e.left, "OR");
      AndFree(e.right);
      TripleFree(Print(e.left), "AND", Print(e.right), "OR");
    } else {
      NotFree(e, "OR");
    }
  }

  lemma {:induction false} PrintTight(e: CondExpr)
    requires Canonical(e) || CanonicalAnd(e) || CanonicalNot(e)
    ensures Tight(Print(e))
  {
    match e {
      case Ident(_) =>
      case Eq(key, value) => assert Print(e)[0] == key[0] && Print(e)[|Print(e)| - 1] == '"';
      case Ne(key, value) => assert Print(e)[0] == key[0] && Print(e)[|Print(e)| - 1] == '"';
      case Not(inner) => PrintTight(inner);
      case And(left, right) => PrintTight(left); PrintTight(right);
      case Or(left, right) => PrintTight(left); PrintTight(right);
    }
  }

  // ── round trip ──

  lemma UnquoteQuoted(v: string)
    requires v != "" ==> v[0] != '"' && v[|v| - 1] != '"'
    ensures Trim(Quoted(v)) == Quoted(v) && TrimMatches(Quoted(v), '"') == v
  {
    TrimTight(Quoted(v));
    assert Quoted(v)[1..] == v + "\"";
    if v == "" {
      assert DropLeading("\"", '"') == DropLeading("", '"');
    } else {
      assert DropLeading(Quoted(v), '"') == v + "\"";
      assert (v + "\"")[..|v|] == v;
      assert DropTrailing(v + "\"", '"') == DropTrailing(v, '"');
    }
  }

  /** A comparison is cut at its own operator, whatever its quoted value contains after it. */
  lemma ComparisonSplits(key: string, op: string, value: string)
    requires Word(key) && (op == "==" || op == "!=") && (value != "" ==> value[0] != '"' && value[|value| - 1] != '"')
    ensures var text := key + Spaced(op) + Quoted(value);
            && Find(text, Spaced(op)) == Some(|key|)
            && Trim(text[..|key|]) == key
            && TrimMatches(Trim(text[|key| + 4..]), '"') == value
  {
    var text := key + Spaced(op) + Quoted(value);
    WordFree(key, op);
    SplitsAtJoin(key, op, Quoted(value));
    assert text[..|key|] == key && text[|key| + 4..] == Quoted(value);
    TrimTight(key);
    UnquoteQuoted(value);
  }

  lemma OperatorTexts()
    ensures Spaced("OR") == " OR " && Spaced("AND") == " AND " && Spaced("!=") == " != " && Spaced("==") == " == "
  {
  }

  // One step of the parser on a tight text, for each place it can cut.

  lemma TightParse(c: string)
    requires Tight(c)
    ensures Trim(c) == c && Parse(c) == ParseTight(c)
  {
    hide ParseTight, Trim;
    TrimTight(c);
  }

  lemma CutOr(c: string, i: nat)
    requires Tight(c) && Find(c, " OR ") == Some(i)
    ensures ParseTight(c) == JoinOr(Parse(Front(c, " OR ", i)), Parse(Rest(c, " OR ", i)))
  {
    hide Parse, ParseConjunct, Trim;
  }

  lemma CutNoOr(c: string)
    requires Tight(c) && Find(c, " OR ") == None
    ensures ParseTight(c) == ParseConjunct(c)
  {
    hide Parse, ParseConjunct, Trim;
  }

  lemma CutAnd(c: string, i: nat)
    requires Tight(c) && Find(c, " AND ") == Some(i)
    ensures ParseConjunct(c) == JoinAnd(Parse(Front(c, " AND ", i)), Parse(Rest(c, " AND ", i)))
  {
    hide Parse, ParseTight, Trim, ParseAtom;
  }

  lemma CutNoAnd(c: string)
    requires Tight(c) && Find(c, " AND ") == None
    ensures OccursAt(c, "NOT ", 0) ==> ParseConjunct(c) == Negate(Parse(Rest(c, "NOT ", 0)))
    ensures !OccursAt(c, "NOT ", 0) ==> ParseConjunct(c) == Ok(ParseAtom(c))
  {
    hide Parse, ParseTight, Trim, ParseAtom;
  }

  lemma CutAtOr(c: string, i: nat, l: CondExpr, r: CondExpr)
    requires Tight(c) && Trim(c) == c && Find(c, " OR ") == Some(i)
    requires Parse(Front(c, " OR ", i)) == Ok(l) && Parse(Rest(c, " OR ", i)) == Ok(r)
    ensures Parse(c) == Ok(Or(l, r))
  {
    hide Parse, ParseTight, ParseConjunct, Trim, Front, Rest, Tight;
    TightParse(c);
    CutOr(c, i);
  }

  lemma CutAtAnd(c: string, i: nat, l: CondExpr, r: CondExpr)
    requires Tight(c) && Trim(c) == c && Find(c, " OR ") == None && Find(c, " AND ") == Some(i)
    requires Parse(Front(c, " AND ", i)) == Ok(l) && Parse(Rest(c, " AND ", i)) == Ok(r)
    ensures Parse(c) == Ok(And(l, r))
  {
    hide Parse, ParseTight, ParseConjunct, Trim, Front, Rest, Tight;
    TightParse(c);
    CutNoOr(c);
    CutAnd(c, i);
  }

  lemma ParseOr(c: string, left: string, right: string, l: CondExpr, r: CondExpr)
    requires c == left + Spaced("OR") + right
    requires Tight(left) && Tight(right) && Free(left, "OR") && Parse(left) == Ok(l) && Parse(right) == Ok(r)
    ensures Parse(c) == Ok(Or(l, r))
  {
    hide Parse;
    OperatorTexts();
    Operands(c, " OR ", left, "OR", right);
    CutAtOr(c, |left|, l, r);
  }

  lemma ParseAnd(c: string, left: string, right: string, l: CondExpr, r: CondExpr)
    requires c == left + Spaced("AND") + right && Free(c, "OR")
    requires Tight(left) && Tight(right) && Free(left, "AND") && Parse(left) == Ok(l) && Parse(right) == Ok(r)
    ensures Parse(c) == Ok(And(l, r))
  {
    hide Parse;
    OperatorTexts();
    NoSplit(c, "OR");
    Operands(c, " AND ", left, "AND", right);
    CutAtAnd(c, |left|, l, r);
  }

  lemma CutAtNot(c: string, e: CondExpr)
    requires Tight(c) && Trim(c) == c && Find(c, " OR ") == None && Find(c, " AND ") == None
    requires OccursAt(c, "NOT ", 0) && Parse(Rest(c, "NOT ", 0)) == Ok(e)
    ensures Parse(c) == Ok(Not(e))
  {
    hide Parse, ParseTight, ParseConjunct, Trim, Front, Rest, Tight;
    TightParse(c);
    CutNoOr(c);
    CutNoAnd(c);
  }

  lemma ParseNot(c: string, rest: string, e: CondExpr)
    requires c == "NOT " + rest && Free(c, "OR") && Free(c, "AND")
    requires Tight(rest) && Parse(rest) == Ok(e)
    ensures Parse(c) == Ok(Not(e))
  {
    hide Parse;
    OperatorTexts();
    NoSplit(c, "OR");
    NoSplit(c, "AND");
    TrimTight(c);
    TrimTight(rest);
    assert c[..4] == "NOT " && c[4..] == rest;
    CutAtNot(c, e);
  }

  lemma ParseLeaf(c: string)
    requires Tight(c) && Free(c, "OR") && Free(c, "AND") && !OccursAt(c, "NOT ", 0)
    ensures Parse(c) == Ok(ParseAtom(c))
  {
    hide Parse, ParseTight, ParseConjunct, ParseAtom, Trim, Tight;
    OperatorTexts();
    NoSplit(c, "OR");
    NoSplit(c, "AND");
    TightParse(c);
    CutNoOr(c);
    CutNoAnd(c);
  }

  /** Two tight texts joined by an operator make a tight text, and the operands of the cut are the two texts. */
  lemma Operands(c: string, pattern: string, left: string, op: string, right: string)
    requires SpaceFree(op) && pattern == Spaced(op) && c == left + pattern + right
    requires Tight(left) && Tight(right) && Free(left, op)
    ensures Tight(c) && Trim(c) == c && Find(c, pattern) == Some(|left|)
    ensures Front(c, pattern, |left|) == left && Rest(c, pattern, |left|) == right
  {
    assert c[..|left|] == left && c[|left| + |pattern|..] == right;
    SplitsAtJoin(left, op, right);
    TrimTight(c);
    TrimTight(left);
    TrimTight(right);
  }

  // ── round trip ──

  lemma StartsWithNot(key: string, rest: string)
    requires SpaceFree(key)
    ensures OccursAt(key + rest, "NOT ", 0) && rest != "" && rest[0] == ' ' ==> key == "NOT"
    ensures OccursAt(key + rest, "NOT ", 0) ==> rest != ""
  {
    var text := key + rest;
    if OccursAt(text, "NOT ", 0) {
      var cut := text[0..4];
      assert forall i :: 0 <= i < 4 ==> text[i] == cut[i];
      assert cut[3] == ' ' && cut[0] == 'N' && cut[1] == 'O' && cut[2] == 'T';
      assert forall i :: 0 <= i < |key| ==> text[i] == key[i];
      assert |key| <= 3;
      assert rest != "" ==> text[|key|] == rest[0];
      if rest != "" && rest[0] == ' ' {
        assert |key| == 3;
        assert key == cut[..3];
      }
    }
  }

  lemma IdentAtom(name: string)
    requires Word(name)
    ensures !OccursAt(name, "NOT ", 0) && ParseAtom(name) == Ident(name)
  {
    OperatorTexts();
    WordFree(name, "!=");
    WordFree(name, "==");
    NoSplit(name, "!=");
    NoSplit(name, "==");
    StartsWithNot(name, "");
    assert name + "" == name;
  }

  lemma AtomNe(c: string, i: nat)
    requires Find(c, " != ") == Some(i)
    ensures i + 4 <= |c| && ParseAtom(c) == Ne(Trim(c[..i]), TrimMatches(Trim(c[i + 4..]), '"'))
  {
    hide Trim, TrimMatches;
  }

  lemma AtomEq(c: string, i: nat)
    requires Find(c, " != ") == None && Find(c, " == ") == Some(i)
    ensures i + 4 <= |c| && ParseAtom(c) == Eq(Trim(c[..i]), TrimMatches(Trim(c[i + 4..]), '"'))
  {
    hide Trim, TrimMatches;
  }

  lemma EqAtom(key: string, value: string)
    requires CanonicalAtom(Eq(key, value))
    ensures var text := key + Spaced("==") + Quoted(value);
            !OccursAt(text, "NOT ", 0) && ParseAtom(text) == Eq(key, value)
  {
    hide ParseAtom, Find, Trim, TrimMatches;
    var text := key + Spaced("==") + Quoted(value);
    OperatorTexts();
    StartsWithNot(key, Spaced("==") + Quoted(value));
    assert text == key + (Spaced("==") + Quoted(value));
    ComparisonSplits(key, "==", value);
    AtomFree(Eq(key, value), "!=");
    NoSplit(text, "!=");
    AtomEq(text, |key|);
  }

  lemma NeAtom(key: string, value: string)
    requires CanonicalAtom(Ne(key, value))
    ensures var text := key + Spaced("!=") + Quoted(value);
            !OccursAt(text, "NOT ", 0) && ParseAtom(text) == Ne(key, value)
  {
    hide ParseAtom, Find, Trim, TrimMatches;
    var text := key + Spaced("!=") + Quoted(value);
    OperatorTexts();
    StartsWithNot(key, Spaced("!=") + Quoted(value));
    assert text == key + (Spaced("!=") + Quoted(value));
    ComparisonSplits(key, "!=", value);
    AtomNe(text, |key|);
  }

  lemma AtomRoundTrip(e: CondExpr)
    requires CanonicalAtom(e)
    ensures Parse(Print(e)) == Ok(e)
  {
    PrintTight(e);
    AtomFree(e, "OR");
    AtomFree(e, "AND");
    match e {
      case Ident(name) => IdentAtom(name);
      case Eq(key, value) => EqAtom(key, value);
      case Ne(key, value) => NeAtom(key, value);
    }
    ParseLeaf(Print(e));
  }

  lemma {:induction false} NotRoundTrip(e: CondExpr)
    requires CanonicalNot(e)
    ensures Parse(Print(e)) == Ok(e)
  {
    hide Parse;
    if e.Not? {
      NotRoundTrip(e.inner);
      PrintTight(e.inner);
      NotFree(e, "OR");
      NotFree(e, "AND");
      ParseNot(Print(e), Print(e.inner), e.inner);
    } else {
      AtomRoundTrip(e);
    }
  }

  lemma {:induction false} AndRoundTrip(e: CondExpr)
    requires CanonicalAnd(e)
    ensures Parse(Print(e)) == Ok(e)
  {
    hide Parse;
    if e.And? {
      NotRoundTrip(e.left);
      AndRoundTrip(e.right);
      PrintTight(e.left);
      PrintTight(e.right);
      AndFree(e);
      NotFree(e.left, "AND");
      ParseAnd(Print(e), Print(e.left), Print(e.right), e.left, e.right);
    } else {
      NotRoundTrip(e);
    }
  }

  /** Printing a canonical condition and parsing it gives the condition back. */
  lemma {:induction false} RoundTrip(e: CondExpr)
    requires Canonical(e)
    ensures Parse(Print(e)) == Ok(e)
  {
    hide Parse;
    if e.Or? {
      AndRoundTrip(e.left);
      RoundTrip(e.right);
      PrintTight(e.left);
      PrintTight(e.right);
      AndFree(e.left);
      ParseOr(Print(e), Print(e.left), Print(e.right), e.left, e.right);
    } else {
      AndRoundTrip(e);
    }
  }

  // ── the meaning of a text built from literals ──

  function JoinTexts(parts: seq<string>, op: string): string
    requires parts != []
  {
    if |parts| == 1 then parts[0] else parts[0] + Spaced(op) + JoinTexts(parts[1..], op)
  }

  function Conjunction(literals: seq<CondExpr>): CondExpr
    requires literals != []
  {
    if |literals| == 1 then literals[0] else And(literals[0], Conjunction(literals[1..]))
  }

  function ConjunctionText(literals: seq<CondExpr>): string
    requires literals != []
  {
    JoinTexts(seq(|literals|, i requires 0 <= i < |literals| => Print(literals[i])), "AND")
  }

  function Disjunction(conjuncts: seq<seq<CondExpr>>): CondExpr
    requires conjuncts != [] && forall i :: 0 <= i < |conjuncts| ==> conjuncts[i] != []
  {
    if |conjuncts| == 1 then Conjunction(conjuncts[0])
    else Or(Conjunction(conjuncts[0]), Disjunction(conjuncts[1..]))
  }

  /** Literals joined by AND into conjuncts, and the conjuncts joined by OR. */
  function DisjunctionText(conjuncts: seq<seq<CondExpr>>): string
    requires conjuncts != [] && forall i :: 0 <= i < |conjuncts| ==> conjuncts[i] != []
  {
    JoinTexts(seq(|conjuncts|, i requires 0 <= i < |conjuncts| => ConjunctionText(conjuncts[i])), "OR")
  }

  ghost predicate Literals(literals: seq<CondExpr>) {
    literals != [] && forall i :: 0 <= i < |literals| ==> CanonicalNot(literals[i])
  }

  ghost predicate AllLiterals(conjuncts: seq<seq<CondExpr>>) {
    conjuncts != [] && forall i :: 0 <= i < |conjuncts| ==> conjuncts[i] != [] && Literals(conjuncts[i])
  }

  ghost predicate AllTrue(literals: seq<CondExpr>, facts: Facts) {
    forall i :: 0 <= i < |literals| ==> EvalExpr(literals[i], facts)
  }

  lemma {:induction false} ConjunctionMeaning(literals: seq<CondExpr>, facts: Facts)
    requires Literals(literals)
    ensures CanonicalAnd(Conjunction(literals)) && !Conjunction(literals).Or?
    ensures Print(Conjunction(literals)) == ConjunctionText(literals)
    ensures EvalExpr(Conjunction(literals), facts) == AllTrue(literals, facts)
  {
    var texts := seq(|literals|, i requires 0 <= i < |literals| => Print(literals[i]));
    if |literals| > 1 {
      var rest := literals[1..];
      ConjunctionMeaning(rest, facts);
      assert texts[1..] == seq(|rest|, i requires 0 <= i < |rest| => Print(rest[i]));
      assert forall i :: 0 < i < |literals| ==> literals[i] == rest[i - 1];
    }
  }

  lemma {:induction false} DisjunctionMeaning(conjuncts: seq<seq<CondExpr>>, facts: Facts)
    requires AllLiterals(conjuncts)
    ensures Canonical(Disjunction(conjuncts))
    ensures Print(Disjunction(conjuncts)) == DisjunctionText(conjuncts)
    ensures EvalExpr(Disjunction(conjuncts), facts)
        <==> exists i :: 0 <= i < |conjuncts| && AllTrue(conjuncts[i], facts)
  {
    ConjunctionMeaning(conjuncts[0], facts);
    var texts := seq(|conjuncts|, i requires 0 <= i < |conjuncts| => ConjunctionText(conjuncts[i]));
    if |conjuncts| > 1 {
      var rest := conjuncts[1..];
      DisjunctionMeaning(rest, facts);
      assert texts[1..] == seq(|rest|, i requires 0 <= i < |rest| => ConjunctionText(rest[i]));
      assert forall i :: 0 < i < |conjuncts| ==> conjuncts[i] == rest[i - 1];
    }
  }

  /** The text of each literal, taken as a condition of its own, is true. */
  ghost predicate AllHold(literals: seq<CondExpr>, facts: Facts) {
    forall i :: 0 <= i < |literals| ==> Evaluate(Print(literals[i]), facts) == Ok(true)
  }

  lemma HoldAsTrue(literals: seq<CondExpr>, facts: Facts)
    requires Literals(literals)
    ensures AllHold(literals, facts) <==> AllTrue(literals, facts)
  {
    hide Parse, EvalExpr, Print;
    forall i | 0 <= i < |literals| ensures Evaluate(Print(literals[i]), facts) == Ok(EvalExpr(literals[i], facts)) {
      NotRoundTrip(literals[i]);
    }
  }

  /** Text made of disjuncts, conjuncts and negated atoms means: some disjunct has the texts of all its literals true. */
  lemma TextMeaning(conjuncts: seq<seq<CondExpr>>, facts: Facts)
    requires AllLiterals(conjuncts)
    ensures Evaluate(DisjunctionText(conjuncts), facts)
         == Ok(exists i :: 0 <= i < |conjuncts| && AllHold(conjuncts[i], facts))
  {
    hide Parse, EvalExpr, AllHold, AllTrue;
    DisjunctionMeaning(conjuncts, facts);
    RoundTrip(Disjunction(conjuncts));
    forall i | 0 <= i < |conjuncts| ensures AllHold(conjuncts[i], facts) <==> AllTrue(conjuncts[i], facts) {
      HoldAsTrue(conjuncts[i], facts);
    }
  }

  // ── exactly which comparisons survive ──

  lemma OccursInside(front: string, middle: string, back: string, pattern: string)
    requires Occurs(middle, pattern)
    ensures Occurs(front + middle + back, pattern)
  {
    var i: nat :| OccursAt(middle, pattern, i);
    assert (front + middle + back)[|front| + i..|front| + i + |pattern|] == middle[i..i + |pattern|];
    assert OccursAt(front + middle + back, pattern, |front| + i);
  }

  /** A text with an operator between spaces in it does not parse as a comparison of a weaker kind. */
  lemma OperatorCuts(c: string)
    requires Tight(c)
    ensures Occurs(c, " OR ") || Occurs(c, " AND ") ==> !ParseTight(c).value.Eq? && !ParseTight(c).value.Ne?
    ensures Occurs(c, " != ") ==> !ParseTight(c).value.Eq?
  {
    hide Parse, ParseTight, ParseConjunct, Trim, Tight, Occurs;
    if Find(c, " OR ").Some? {
      CutOr(c, Find(c, " OR ").value);
    } else {
      CutNoOr(c);
      if Find(c, " AND ").Some? {
        CutAnd(c, Find(c, " AND ").value);
      } else {
        CutNoAnd(c);
      }
    }
  }

  /** An operator between spaces inside the quotes is cut at, so the comparison does not come back. */
  lemma OperatorInValue(e: CondExpr, op: string)
    requires (e.Eq? || e.Ne?) && Word(e.key) && Occurs(e.value, Spaced(op))
    requires op == "OR" || op == "AND" || (op == "!=" && e.Eq?)
    ensures Parse(Print(e)) != Ok(e)
  {
    var text := Print(e);
    var lead := e.key + Spaced(if e.Eq? then "==" else "!=") + "\"";
    OperatorTexts();
    assert text == lead + e.value + "\"";
    OccursInside(lead, e.value, "\"", Spaced(op));
    assert text[0] == e.key[0] && text[|text| - 1] == '"';
    CutText(text, e);
  }

  lemma CutText(text: string, e: CondExpr)
    requires Tight(text) && (e.Eq? || e.Ne?)
    requires Occurs(text, " OR ") || Occurs(text, " AND ") || (Occurs(text, " != ") && e.Eq?)
    ensures Parse(text) != Ok(e)
  {
    TrimTight(text);
    OperatorCuts(text);
  }

  /** A comparison survives printing and parsing exactly when it is canonical: its value has no quote at either
      end and no operator between spaces. A NOT inside the value does no harm, since it is only read as a prefix. */
  lemma ComparisonExactly(e: CondExpr)
    requires (e.Eq? || e.Ne?) && Word(e.key)
    ensures Parse(Print(e)) == Ok(e) <==> CanonicalAtom(e)
  {
    if CanonicalAtom(e) {
      AtomRoundTrip(e);
    } else if Occurs(e.value, Spaced("OR")) {
      OperatorInValue(e, "OR");
    } else if Occurs(e.value, Spaced("AND")) {
      OperatorInValue(e, "AND");
    } else if e.Eq? && Occurs(e.value, Spaced("!=")) {
      OperatorInValue(e, "!=");
    } else if Parse(Print(e)) == Ok(e) {
      ParsedComparison(Print(e), e);
      assert false;
    }
  }

  lemma ParsedComparison(text: string, e: CondExpr)
    requires Parse(text) == Ok(e) && (e.Eq? || e.Ne?)
    ensures e.value != "" ==> e.value[0] != '"' && e.value[|e.value| - 1] != '"'
  {
    hide ParseTight, ParseAtom, Trim;
    ComparisonIsAtom(Trim(text), e);
    AtomUnquoted(Trim(text));
  }

  lemma ComparisonIsAtom(c: string, e: CondExpr)
    requires Tight(c) && ParseTight(c) == Ok(e) && (e.Eq? || e.Ne?)
    ensures e == ParseAtom(c)
  {
    hide Parse, ParseAtom, ParseTight, ParseConjunct, Trim, Tight;
    if Find(c, " OR ").Some? {
      CutOr(c, Find(c, " OR ").value);
    } else {
      CutNoOr(c);
      if Find(c, " AND ").Some? { CutAnd(c, Find(c, " AND ").value); } else { CutNoAnd(c); }
    }
  }
}
