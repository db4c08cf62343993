/** The shell-command check: every segment is validated on its own, the first failure is reported. */
module ShellCheck {
  import opened Wrappers
  import opened Text
  import opened Classifier
  import opened ClassifierLaws

  datatype Policy = Policy(allowlist: seq<string>, forbidden: seq<string>)

  datatype Violation =
    | DangerousPattern(pattern: string)
    | NotAllowed(name: string)
    | ForbiddenPath(path: string)

  const DANGEROUS: seq<string> := [
    "rm -rf /", ":(){ :|:& };:", "mkfs.", "dd if=", "> /dev/sd", "chmod -R 777 /",
    "curl | sh", "wget | sh", "curl | bash", "wget | bash"]

  function Contains(s: string, part: string): bool {
    Find(s, part).Some?
  }

  ghost predicate NoneIn(s: string, parts: seq<string>) {
    forall k :: 0 <= k < |parts| ==> !Occurs(s, parts[k])
  }

  /** `part` is listed at `k` and occurs in `s`, and nothing listed before it does. */
  ghost predicate FirstAt(s: string, parts: seq<string>, k: nat, part: string) {
    k < |parts| && parts[k] == part && Occurs(s, part) && NoneIn(s, parts[..k])
  }

  /** The first of `parts` that occurs in `s`. */
  function FirstIn(s: string, parts: seq<string>): Option<string> {
    if parts == [] then None
    else if Contains(s, parts[0]) then Some(parts[0])
    else FirstIn(s, parts[1..])
  }

  /** The first white-space separated word, empty when there is none. */
  function FirstWord(s: string): string {
    Word(TrimStart(s))
  }

  function WithoutStars(pattern: string): (r: string)
    ensures r <= pattern
  {
    if pattern != "" && pattern[|pattern| - 1] == '*' then WithoutStars(pattern[..|pattern| - 1]) else pattern
  }

  predicate Allows(pattern: string, name: string) {
    if '*' in pattern then WithoutStars(pattern) <= name else name == pattern
  }

  predicate Listed(allowlist: seq<string>, name: string) {
    exists k :: 0 <= k < |allowlist| && Allows(allowlist[k], name)
  }

  lemma {:induction false} FirstInExactly(s: string, parts: seq<string>)
    ensures FirstIn(s, parts).None? <==> NoneIn(s, parts)
    ensures FirstIn(s, parts).Some? ==> exists k: nat :: FirstAt(s, parts, k, FirstIn(s, parts).value)
  {
    hide Find;
    if parts != [] && !Contains(s, parts[0]) {
      FirstInExactly(s, parts[1..]);
      assert forall k :: 1 <= k < |parts| ==> parts[k] == parts[1..][k - 1];
      if FirstIn(s, parts).Some? {
        var k: nat :| FirstAt(s, parts[1..], k, FirstIn(s, parts).value);
        assert parts[..k + 1] == [parts[0]] + parts[1..][..k];
        assert FirstAt(s, parts, k + 1, parts[k + 1]);
      }
    } else if parts != [] {
      assert FirstAt(s, parts, 0, parts[0]);
    }
  }

  // ── which commands are permitted ──

  /** `stem` is `entry` without the stars at its end. */
  ghost predicate IsStem(entry: string, stem: string) {
    && stem <= entry && (stem != "" ==> stem[|stem| - 1] != '*')
    && forall k :: |stem| <= k < |entry| ==> entry[k] == '*'
  }

  /** An entry without a star is a name; one with a star stands for all names that begin with its stem. */
  ghost predicate StandsFor(entry: string, name: string) {
    if '*' in entry then exists stem :: IsStem(entry, stem) && stem <= name else entry == name
  }

  /** No allowlist is set, or some entry of it stands for the command. */
  ghost predicate Permitted(segment: string, policy: Policy) {
    policy.allowlist == []
    || exists k :: 0 <= k < |policy.allowlist| && StandsFor(policy.allowlist[k], FirstWord(segment))
  }

  lemma {:induction false} StemFound(entry: string)
    ensures IsStem(entry, WithoutStars(entry))
  {
    if entry != "" && entry[|entry| - 1] == '*' {
      var n := |entry| - 1;
      StemFound(entry[..n]);
      assert forall k :: 0 <= k < n ==> entry[k] == entry[..n][k];
    }
  }

  lemma OneStem(entry: string, a: string, b: string)
    requires IsStem(entry, a) && IsStem(entry, b) && |a| <= |b|
    ensures a == b
  {
    if b != "" { assert b[|b| - 1] == entry[|b| - 1]; }
  }

  lemma AllowsExactly(entry: string, name: string)
    ensures Allows(entry, name) <==> StandsFor(entry, name)
  {
    hide IsStem;
    StemFound(entry);
    forall stem | IsStem(entry, stem) ensures stem == WithoutStars(entry) {
      if |stem| <= |WithoutStars(entry)| {
        OneStem(entry, stem, WithoutStars(entry));
      } else {
        OneStem(entry, WithoutStars(entry), stem);
      }
    }
  }

  lemma PermittedExactly(segment: string, policy: Policy)
    ensures Permitted(segment, policy) <==> policy.allowlist == [] || Listed(policy.allowlist, FirstWord(segment))
  {
    hide StandsFor, Allows;
    var list, name := policy.allowlist, FirstWord(segment);
    forall k | 0 <= k < |list| ensures Allows(list[k], name) <==> StandsFor(list[k], name) {
      AllowsExactly(list[k], name);
    }
  }

  /** The command name is what stands between the white space in front of it and the next, and nothing if there is only
      white space. */
  ghost predicate NamedAt(segment: string, i: nat, j: nat) {
    && i <= j <= |segment| && Blank(segment[..i])
    && (forall k :: i <= k < j ==> !IsWhite(segment[k]))
    && (j < |segment| ==> i < j && IsWhite(segment[j]))
  }

  lemma {:induction false} TrimmedAt(s: string, i: nat)
    requires i <= |s| && Blank(s[..i]) && (i < |s| ==> !IsWhite(s[i]))
    ensures TrimStart(s) == s[i..]
  {
    hide IsWhite;
    if i > 0 {
      assert IsWhite(s[..i][0]);
      assert s[1..][..i - 1] == s[..i][1..];
      TrimmedAt(s[1..], i - 1);
      assert s[1..][i - 1..] == s[i..];
    }
  }

  lemma {:induction false} WordAt(s: string, n: nat)
    requires n <= |s| && (forall k :: 0 <= k < n ==> !IsWhite(s[k])) && (n < |s| ==> IsWhite(s[n]))
    ensures Word(s) == s[..n]
  {
    hide IsWhite;
    if n > 0 {
      WordAt(s[1..], n - 1);
      assert s[..n] == [s[0]] + s[1..][..n - 1];
    }
  }

  lemma CommandName(segment: string, i: nat, j: nat)
    requires NamedAt(segment, i, j)
    ensures FirstWord(segment) == segment[i..j]
  {
    hide TrimStart, Word, IsWhite;
    TrimmedAt(segment, i);
    assert forall k :: 0 <= k < j - i ==> segment[i..][k] == segment[i + k];
    WordAt(segment[i..], j - i);
    assert segment[i..][..j - i] == segment[i..j];
  }

  /** When nothing else is wrong with a segment, it is accepted exactly when there is no allowlist or some entry of it
      stands for the command name. */
  lemma AllowedExactly(segment: string, i: nat, j: nat, policy: Policy, lower: string -> string)
    requires segment != "" && NamedAt(segment, i, j)
    requires NoneIn(lower(segment), DANGEROUS) && NoneIn(segment, policy.forbidden)
    ensures Fault(segment, policy, lower).None? <==>
              policy.allowlist == [] || exists k :: 0 <= k < |policy.allowlist| && StandsFor(policy.allowlist[k], segment[i..j])
    ensures Fault(segment, policy, lower).Some? ==> Fault(segment, policy, lower) == Some(NotAllowed(segment[i..j]))
  {
    hide FirstIn, FirstWord, Listed, NoneIn, FirstAt, StandsFor, NamedAt;
    CommandName(segment, i, j);
    PermittedExactly(segment, policy);
    FirstInExactly(lower(segment), DANGEROUS);
    FirstInExactly(segment, policy.forbidden);
  }

  /** A segment is refused for a dangerous pattern exactly when its lower-case form contains one of ten. */
  lemma DangerousExactly(segment: string, policy: Policy, lower: string -> string)
    requires segment != ""
    ensures Fault(segment, policy, lower).Some? && Fault(segment, policy, lower).value.DangerousPattern? <==>
              || Occurs(lower(segment), "rm -rf /") || Occurs(lower(segment), ":(){ :|:& };:")
              || Occurs(lower(segment), "mkfs.") || Occurs(lower(segment), "dd if=")
              || Occurs(lower(segment), "> /dev/sd") || Occurs(lower(segment), "chmod -R 777 /")
              || Occurs(lower(segment), "curl | sh") || Occurs(lower(segment), "wget | sh")
              || Occurs(lower(segment), "curl | bash") || Occurs(lower(segment), "wget | bash")
  {
    hide FirstIn, FirstWord, Listed, Occurs, FirstAt;
    FirstInExactly(lower(segment), DANGEROUS);
    assert DANGEROUS[0] == "rm -rf /" && DANGEROUS[1] == ":(){ :|:& };:" && DANGEROUS[2] == "mkfs.";
    assert DANGEROUS[3] == "dd if=" && DANGEROUS[4] == "> /dev/sd" && DANGEROUS[5] == "chmod -R 777 /";
    assert DANGEROUS[6] == "curl | sh" && DANGEROUS[7] == "wget | sh" && DANGEROUS[8] == "curl | bash";
    assert DANGEROUS[9] == "wget | bash" && |DANGEROUS| == 10;
  }

  /** What is wrong with one segment, in the order the checks are made. */
  function Fault(segment: string, policy: Policy, lower: string -> string): Option<Violation> {
    if segment == "" then None
    else
      match FirstIn(lower(segment), DANGEROUS)
      case Some(p) => Some(DangerousPattern(p))
      case None =>
        if policy.allowlist != [] && !Listed(policy.allowlist, FirstWord(segment)) then
          Some(NotAllowed(FirstWord(segment)))
        else
          match FirstIn(segment, policy.forbidden)
          case Some(p) => Some(ForbiddenPath(p))
          case None => None
  }

  ghost predicate FirstFaulty(segments: seq<string>, k: int, policy: Policy, lower: string -> string) {
    && 0 <= k < |segments| && Fault(segments[k], policy, lower).Some?
    && forall j :: 0 <= j < k ==> Fault(segments[j], policy, lower).None?
  }

  /** The fault of the first faulty segment. */
  function FirstFault(segments: seq<string>, policy: Policy, lower: string -> string): Option<Violation> {
    if segments == [] then None
    else if Fault(segments[0], policy, lower).Some? then Fault(segments[0], policy, lower)
    else FirstFault(segments[1..], policy, lower)
  }

  /** No fault is reported exactly when no segment has one; otherwise the earliest faulty segment speaks. */
  lemma {:induction false} FirstFaultMeans(segments: seq<string>, policy: Policy, lower: string -> string)
    returns (k: nat)
    ensures FirstFault(segments, policy, lower).Some?
        ==> FirstFaulty(segments, k, policy, lower) && Fault(segments[k], policy, lower) == FirstFault(segments, policy, lower)
    ensures FirstFault(segments, policy, lower).None?
        ==> forall j :: 0 <= j < |segments| ==> Fault(segments[j], policy, lower).None?
  {
    hide Fault;
    k := 0;
    if segments != [] && Fault(segments[0], policy, lower).None? {
      var rest := FirstFaultMeans(segments[1..], policy, lower);
      k := rest + 1;
      assert forall j :: 1 <= j < |segments| ==> segments[j] == segments[1..][j - 1];
    }
  }

  function Verdict(command: string, policy: Policy, lower: string -> string): Option<Violation> {
    FirstFault(Segments(command), policy, lower)
  }

  /** The loops over the dangerous patterns and over the forbidden paths. */
  method FindAny(s: string, parts: seq<string>) returns (found: Option<string>)
    ensures found == FirstIn(s, parts)
  {
    hide Contains;
    var i := 0;
    while i < |parts|
      invariant 0 <= i <= |parts|
      invariant FirstIn(s, parts) == FirstIn(s, parts[i..])
    {
      if Contains(s, parts[i]) {
        return Some(parts[i]);
      }
      assert parts[i..][1..] == parts[i + 1..];
      i := i + 1;
    }
    return None;
  }

  /** A segment is accepted exactly when it is empty, or holds no dangerous pattern in lower case, names a permitted
      command and holds no forbidden path. The error says which of the three failed first, and on what. */
  method ValidateSingleSegment(segment: string, policy: Policy, lower: string -> string)
    returns (result: Result<(), Violation>)
    ensures result.Ok? <==>
              || segment == ""
              || (NoneIn(lower(segment), DANGEROUS) && Permitted(segment, policy) && NoneIn(segment, policy.forbidden))
    ensures result.Err? ==>
              match result.error
              case DangerousPattern(p) => exists k: nat :: FirstAt(lower(segment), DANGEROUS, k, p)
              case NotAllowed(name) =>
                NoneIn(lower(segment), DANGEROUS) && !Permitted(segment, policy) && name == FirstWord(segment)
              case ForbiddenPath(p) =>
                && NoneIn(lower(segment), DANGEROUS) && Permitted(segment, policy)
                && exists k: nat :: FirstAt(segment, policy.forbidden, k, p)
    ensures Fault(segment, policy, lower) == if result.Ok? then None else Some(result.error)
  {
    hide FirstIn, FirstWord, Listed, NoneIn, FirstAt, Permitted;
    if segment == "" {
      return Ok(());
    }
    PermittedExactly(segment, policy);
    FirstInExactly(lower(segment), DANGEROUS);
    FirstInExactly(segment, policy.forbidden);
    var pattern := FindAny(lower(segment), DANGEROUS);
    if pattern.Some? {
      return Err(DangerousPattern(pattern.value));
    }
    if policy.allowlist != [] && !Listed(policy.allowlist, FirstWord(segment)) {
      return Err(NotAllowed(FirstWord(segment)));
    }
    var path := FindAny(segment, policy.forbidden);
    if path.Some? {
      return Err(ForbiddenPath(path.value));
    }
    return Ok(());
  }

  method ValidateShellCommand(command: string, policy: Policy, lower: string -> string)
    returns (result: Result<(), Violation>)
    ensures result.Ok? <==> Verdict(command, policy, lower).None?
    ensures result.Err? ==> Verdict(command, policy, lower) == Some(result.error)
  {
    hide Fault, Segments, Trim;
    var segments := SplitUnquotedSegments(command);
    var i := 0;
    while i < |segments|
      invariant 0 <= i <= |segments|
      invariant FirstFault(segments, policy, lower) == FirstFault(segments[i..], policy, lower)
    {
      SegmentsTight(command, segments[i]);
      var r := ValidateSingleSegment(Trim(segments[i]), policy, lower);
      if r.Err? {
        return r;
      }
      assert segments[i..][1..] == segments[i + 1..];
      i := i + 1;
    }
    return Ok(());
  }

  /** Segments come out trimmed, so the second trim changes nothing. */
  lemma SegmentsTight(command: string, segment: string)
    requires segment in Segments(command)
    ensures Tight(segment) && Trim(segment) == segment
  {
    hide Trim;
    FromRaw(Split(Lex(command, Outside)), segment);
    TrimTight(segment);
  }

  lemma {:induction false} FirstFaultAppend(a: seq<string>, b: seq<string>, policy: Policy, lower: string -> string)
    ensures FirstFault(a + b, policy, lower)
         == if FirstFault(a, policy, lower).Some? then FirstFault(a, policy, lower) else FirstFault(b, policy, lower)
  {
    hide Fault;
    if a == [] {
      assert a + b == b;
    } else {
      assert (a + b)[1..] == a[1..] + b && (a + b)[0] == a[0];
      FirstFaultAppend(a[1..], b, policy, lower);
    }
  }

  /** A command joined to a cleanly ended one is accepted iff both parts are, and the fault reported is the
      first part's when it has one. */
  lemma JoinedVerdict(c1: string, op: string, c2: string, policy: Policy, lower: string -> string)
    requires CleanEnd(c1) && IsOperator(op)
    ensures var v1, v2 := Verdict(c1, policy, lower), Verdict(c2, policy, lower);
            && Verdict(c1 + op + c2, policy, lower) == (if v1.Some? then v1 else v2)
            && (Verdict(c1 + op + c2, policy, lower).None? <==> v1.None? && v2.None?)
  {
    hide Segments, FirstFault, CleanEnd;
    JoinedSegments(c1, op, c2);
    FirstFaultAppend(Segments(c1), Segments(c2), policy, lower);
  }

  lemma FirstFaultOne(segment: string, policy: Policy, lower: string -> string)
    ensures FirstFault([segment], policy, lower) == Fault(segment, policy, lower)
  {
  }

  /** A command is accepted iff each of its segments is accepted as a command of its own. */
  lemma SegmentwiseVerdict(command: string, policy: Policy, lower: string -> string)
    ensures Verdict(command, policy, lower).None?
        <==> forall k :: 0 <= k < |Segments(command)| ==> Verdict(Segments(command)[k], policy, lower).None?
  {
    hide Segments, Fault;
    var segments := Segments(command);
    var first := FirstFaultMeans(segments, policy, lower);
    forall k | 0 <= k < |segments|
      ensures Verdict(segments[k], policy, lower).None? <==> Fault(segments[k], policy, lower).None?
    {
      SegmentsAreStable(command, segments[k]);
      FirstFaultOne(segments[k], policy, lower);
    }
  }

  // ── operators in the patterns ──

  /** Lower-casing moves no character and makes no operator. */
  ghost predicate KeepsOperators(s: string, lower: string -> string) {
    |lower(s)| == |s| && forall i :: 0 <= i < |s| && IsOperatorChar(lower(s)[i]) ==> IsOperatorChar(s[i])
  }

  /** Wherever a pattern is found in a segment, its operator characters stand inside quotes or behind a backslash: as
      operators they would have ended the segment. */
  lemma PatternOperatorsShielded(command: string, segment: string, lower: string -> string, p: string, i: nat, j: nat)
    requires segment in Segments(command) && KeepsOperators(segment, lower)
    requires OccursAt(lower(segment), p, i) && j < |p| && IsOperatorChar(p[j])
    ensures i + j < |segment| && Shielded(segment, Outside, i + j)
  {
    hide Segments;
    assert lower(segment)[i..i + |p|][j] == lower(segment)[i + j];
    OperatorsAreShielded(command, segment, i + j);
  }

  // ── commands without quotes ──

  predicate IsPlain(s: string) {
    forall i :: 0 <= i < |s| ==> s[i] != '\'' && s[i] != '"' && s[i] != '\\'
  }

  predicate HasOperator(s: string) {
    exists i :: 0 <= i < |s| && IsOperatorChar(s[i])
  }

  /** Outside quotes, whole plain text has no operator character. */
  lemma {:induction false} PlainWhole(s: string)
    requires IsPlain(s) && Whole(s, Outside)
    ensures !HasOperator(s)
    decreases |s|
  {
    if s != "" {
      assert Head(s, Outside) == Piece(s[..1]) && Rest(s, Outside) == s[1..];
      PlainWhole(s[1..]);
      assert forall i :: 1 <= i < |s| ==> s[i] == s[1..][i - 1];
    }
  }

  /** The raw segments are cut out of the text. */
  lemma {:induction false} RawInside(s: string, m: Mode)
    ensures forall raw :: raw in Split(Lex(s, m)) ==> forall c :: c in raw ==> c in s
    decreases |s|
  {
    hide Lex, Split, Head, Next, Glue;
    if s == "" {
      LoneBackslash(s, m);
    } else {
      var head, rest := Head(s, m), Rest(s, m);
      var raws := Split(Lex(rest, Next(s, m)));
      RawInside(rest, Next(s, m));
      LexStep(s, m);
      assert s == head.text + rest;
      if head.Piece? {
        assert forall raw :: raw in Glue(head.text, raws) ==> raw == head.text + raws[0] || raw in raws[1..];
        assert raws[0] in raws;
        assert forall raw :: raw in raws[1..] ==> raw in raws;
      }
    }
  }

  lemma TrimInside(s: string)
    ensures forall c :: c in Trim(s) ==> c in s
  {
    var t := TrimStart(s);
    assert forall c :: c in t ==> c in s;
    assert forall c :: c in TrimEnd(t) ==> c in t;
  }

  /** In a command without quotes and backslashes no segment holds an operator character, so no pattern that holds
      one is ever reported, unless lower-casing brings one in. */
  lemma PlainSegments(command: string, segment: string, policy: Policy, lower: string -> string)
    requires IsPlain(command) && segment in Segments(command)
    requires HasOperator(lower(segment)) ==> HasOperator(segment)
    ensures !HasOperator(segment)
    ensures forall p :: HasOperator(p) ==> Fault(segment, policy, lower) != Some(DangerousPattern(p))
  {
    hide Lex, Split, Trim, Whole, Find;
    FirstInExactly(lower(segment), DANGEROUS);
    forall p ensures HasOperator(p) && Occurs(lower(segment), p) ==> HasOperator(lower(segment)) {
      if HasOperator(p) && Occurs(lower(segment), p) { OperatorOccurs(lower(segment), p); }
    }
    var raws := Split(Lex(command, Outside));
    FromRaw(raws, segment);
    var k :| 0 <= k < |raws| && segment == Trim(raws[k]) && segment != "";
    RawWhole(command, Outside);
    RawInside(command, Outside);
    assert raws[k] in raws;
    assert forall i :: 0 <= i < |raws[k]| ==> raws[k][i] in raws[k] && raws[k][i] in command;
    PlainWhole(raws[k]);
    TrimInside(raws[k]);
    assert forall i :: 0 <= i < |segment| ==> segment[i] in raws[k];
  }

  lemma OperatorOccurs(s: string, p: string)
    requires HasOperator(p) && Occurs(s, p)
    ensures HasOperator(s)
  {
    var j :| 0 <= j < |p| && IsOperatorChar(p[j]);
    var i: nat :| OccursAt(s, p, i);
    assert s[i..i + |p|][j] == s[i + j];
  }
}
