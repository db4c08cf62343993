/** The conversation context and its truncation to a token budget. */
module Context {
  import opened Text
  import opened Wrappers

  /** A tool call with the printed length of its arguments. */
  datatype ToolCall = ToolCall(id: string, name: string, argumentsText: string)

  datatype Message =
    | System(content: string)
    | User(content: string)
    | Assistant(content: string)
    | AssistantToolCalls(calls: seq<ToolCall>)
    | ToolResult(toolCallId: string, content: string)

  function CallsLen(calls: seq<ToolCall>): nat {
    if calls == [] then 0
    else Len(calls[0].name) + Len(calls[0].argumentsText) + Len(calls[0].id) + CallsLen(calls[1..])
  }

  /** Four bytes to a token, and never less than one token a message. */
  function Estimate(m: Message): (t: nat)
    ensures t >= 1
  {
    var chars :=
      match m
      case System(s) => Len(s)
      case User(s) => Len(s)
      case Assistant(s) => Len(s)
      case AssistantToolCalls(calls) => CallsLen(calls)
      case ToolResult(_, content) => Len(content);
    if chars / 4 > 1 then chars / 4 else 1
  }

  function Total(messages: seq<Message>): nat {
    if messages == [] then 0 else Estimate(messages[0]) + Total(messages[1..])
  }

  function SystemPart(messages: seq<Message>): (r: seq<Message>)
    ensures r <= messages && |r| <= 1 && forall m :: m in r ==> m.System?
  {
    if messages != [] && messages[0].System? then messages[..1] else []
  }

  function Rest(messages: seq<Message>): seq<Message> {
    messages[|SystemPart(messages)|..]
  }

  function Minus(a: nat, b: nat): nat {
    if a > b then a - b else 0
  }

  // ── what truncation means ──

  /** What is left for the other messages once the system message is kept. */
  function Budget(messages: seq<Message>, max: nat): nat {
    Minus(max, Total(SystemPart(messages)))
  }

  /** `from` starts the longest suffix of `rest` that fits the budget. */
  ghost predicate LongestFit(rest: seq<Message>, budget: nat, from: nat) {
    && from <= |rest| && Total(rest[from..]) <= budget
    && forall k :: 0 <= k < from ==> Total(rest[k..]) > budget
  }

  /** `after` is `before` if that fits, otherwise its system message and the longest fitting suffix of the rest. */
  ghost predicate Truncated(before: seq<Message>, max: nat, after: seq<Message>) {
    if Total(before) <= max then after == before
    else exists from: nat :: LongestFit(Rest(before), Budget(before, max), from)
                             && after == SystemPart(before) + Rest(before)[from..]
  }

  lemma {:induction false} TotalAppend(a: seq<Message>, b: seq<Message>)
    ensures Total(a + b) == Total(a) + Total(b)
  {
    hide Estimate;
    if a == [] {
      assert a + b == b;
    } else {
      assert (a + b)[1..] == a[1..] + b;
      TotalAppend(a[1..], b);
    }
  }

  lemma TotalParts(messages: seq<Message>)
    ensures messages == SystemPart(messages) + Rest(messages)
    ensures Total(messages) == Total(SystemPart(messages)) + Total(Rest(messages))
  {
  }

  /** A shorter suffix weighs less. */
  lemma {:induction false} SuffixLighter(messages: seq<Message>, j: nat, k: nat)
    requires j <= k <= |messages|
    ensures Total(messages[k..]) <= Total(messages[j..])
  {
    hide Total;
    assert messages[j..] == messages[j..k] + messages[k..];
    TotalAppend(messages[j..k], messages[k..]);
  }

  /** There is only one result. */
  lemma TruncatedUnique(before: seq<Message>, max: nat, a: seq<Message>, b: seq<Message>)
    requires Truncated(before, max, a) && Truncated(before, max, b)
    ensures a == b
  {
  }

  /** The result fits the limit, exactly when the system message alone does. */
  lemma TruncatedFits(before: seq<Message>, max: nat, after: seq<Message>)
    requires Truncated(before, max, after)
    ensures Total(after) <= max <==> Total(SystemPart(before)) <= max
  {
    hide Total;
    TotalParts(before);
    if Total(before) > max {
      var from: nat :| LongestFit(Rest(before), Budget(before, max), from)
                       && after == SystemPart(before) + Rest(before)[from..];
      TotalAppend(SystemPart(before), Rest(before)[from..]);
    }
  }

  /** Every message weighs something. */
  lemma TotalPositive(messages: seq<Message>)
    ensures Total(messages) == 0 <==> messages == []
  {
  }

  /** Truncating again changes nothing. */
  lemma TruncateIdempotent(before: seq<Message>, max: nat, after: seq<Message>)
    requires Truncated(before, max, after)
    ensures Truncated(after, max, after)
  {
    hide Total;
    if Total(before) > max && Total(after) > max {
      TruncatedFits(before, max, after);
      var from: nat :| LongestFit(Rest(before), Budget(before, max), from)
                       && after == SystemPart(before) + Rest(before)[from..];
      TotalPositive(Rest(before)[from..]);
      assert Budget(before, max) == 0;
      assert Rest(before)[from..] == [];
      assert after == SystemPart(before);
      assert SystemPart(after) == after && Rest(after) == [];
      assert Rest(after)[0..] == [];
      TotalPositive([]);
      assert LongestFit(Rest(after), Budget(after, max), 0);
    }
  }

  // ── the context ──

  /** At most one system message, and only at the front. */
  predicate OneSystem(messages: seq<Message>) {
    forall i :: 0 < i < |messages| ==> !messages[i].System?
  }

  /** `retain(|m| !matches!(m, System(_)))`. */
  function WithoutSystem(messages: seq<Message>): (r: seq<Message>)
    ensures forall m :: m in r <==> m in messages && !m.System?
  {
    if messages == [] then []
    else (if messages[0].System? then [] else [messages[0]]) + WithoutSystem(messages[1..])
  }

  lemma {:induction false} NoSystemKept(messages: seq<Message>)
    requires forall i :: 0 <= i < |messages| ==> !messages[i].System?
    ensures WithoutSystem(messages) == messages
  {
    if messages != [] {
      NoSystemKept(messages[1..]);
    }
  }

  /** Removing the system messages of a well-formed context leaves exactly the rest. */
  lemma WithoutSystemIsRest(messages: seq<Message>)
    requires OneSystem(messages)
    ensures WithoutSystem(messages) == Rest(messages)
  {
  }

  lemma TruncatedKeepsOneSystem(before: seq<Message>, max: nat, after: seq<Message>)
    requires OneSystem(before) && Truncated(before, max, after)
    ensures OneSystem(after)
  {
  }

  class ConversationContext {
    var messages: seq<Message>
    const maxTokens: nat

    ghost predicate Valid()
      reads this
    {
      OneSystem(messages)
    }

    constructor (maxTokens: nat)
      ensures Valid() && messages == [] && this.maxTokens == maxTokens
    {
      messages, this.maxTokens := [], maxTokens;
    }

    method SetSystem(content: string)
      requires Valid()
      modifies this
      ensures Valid() && messages == [System(content)] + Rest(old(messages))
    {
      WithoutSystemIsRest(messages);
      messages := WithoutSystem(messages);
      messages := [System(content)] + messages;
    }

    method AddUser(content: string)
      requires Valid()
      modifies this
      ensures Valid() && messages == old(messages) + [User(content)]
    {
      messages := messages + [User(content)];
    }

    method AddAssistant(content: string)
      requires Valid()
      modifies this
      ensures Valid() && messages == old(messages) + [Assistant(content)]
    {
      messages := messages + [Assistant(content)];
    }

    method AddAssistantToolCalls(calls: seq<ToolCall>)
      requires Valid()
      modifies this
      ensures Valid() && messages == old(messages) + [AssistantToolCalls(calls)]
    {
      messages := messages + [AssistantToolCalls(calls)];
    }

    method AddToolResult(toolCallId: string, result: string)
      requires Valid()
      modifies this
      ensures Valid() && messages == old(messages) + [ToolResult(toolCallId, result)]
    {
      messages := messages + [ToolResult(toolCallId, result)];
    }

    method TruncateToFit()
      requires Valid()
      modifies this
      ensures Valid() && Truncated(old(messages), maxTokens, messages)
    {
      hide Total, Estimate, LongestFit;
      var estimated := Sum(messages);
      if estimated <= maxTokens {
        return;
      }
      var before := messages;
      TotalParts(before);
      var systemMsg := SystemPart(before);
      messages := Rest(before);
      var systemTokens := Sum(systemMsg);
      var budget := Minus(maxTokens, systemTokens);
      var kept := KeepFromEnd(messages, budget);
      assert LongestFit(Rest(before), Budget(before, maxTokens), |messages| - |kept|);
      messages := systemMsg + kept;
      TruncatedKeepsOneSystem(before, maxTokens, messages);
    }

    method LastUserMessage() returns (r: Option<string>)
      ensures r.None? <==> forall i :: 0 <= i < |messages| ==> !messages[i].User?
      ensures r.Some? ==> exists i :: 0 <= i < |messages| && messages[i] == User(r.value)
                                      && forall j :: i < j < |messages| ==> !messages[j].User?
    {
      var i := |messages|;
      while i > 0
        invariant 0 <= i <= |messages| && forall j :: i <= j < |messages| ==> !messages[j].User?
      {
        i := i - 1;
        if messages[i].User? {
          return Some(messages[i].content);
        }
      }
      return None;
    }
  }

  /** The iterator sum of the estimates. */
  method Sum(messages: seq<Message>) returns (sum: nat)
    ensures sum == Total(messages)
  {
    hide Estimate;
    sum := 0;
    var i := 0;
    while i < |messages|
      invariant 0 <= i <= |messages| && sum + Total(messages[i..]) == Total(messages)
    {
      assert messages[i..][1..] == messages[i + 1..];
      sum := sum + Estimate(messages[i]);
      i := i + 1;
    }
  }

  /** The reverse loop: takes messages from the end until the next one would not fit. */
  method KeepFromEnd(rest: seq<Message>, budget: nat) returns (kept: seq<Message>)
    ensures |kept| <= |rest| && kept == rest[|rest| - |kept|..]
    ensures LongestFit(rest, budget, |rest| - |kept|)
  {
    hide Estimate;
    var reversed: seq<Message> := [];
    var used, i := 0, |rest|;
    while i > 0
      invariant 0 <= i <= |rest| && |reversed| == |rest| - i
      invariant forall k :: 0 <= k < |reversed| ==> reversed[k] == rest[|rest| - 1 - k]
      invariant used == Total(rest[i..]) <= budget
    {
      var t := Estimate(rest[i - 1]);
      assert rest[i - 1..][1..] == rest[i..];
      if used + t > budget {
        break;
      }
      used := used + t;
      reversed := reversed + [rest[i - 1]];
      i := i - 1;
    }
    forall k | 0 <= k < i ensures Total(rest[k..]) > budget {
      SuffixLighter(rest, k, i - 1);
    }
    kept := seq(|reversed|, k requires 0 <= k < |reversed| => reversed[|reversed| - 1 - k]);
  }

  // ── runs ──

  datatype Operation =
    | SetSystemTo(content: string)
    | Add(message: Message)
    | Truncate

  /** One operation of the context, on values. */
  ghost predicate Operates(before: seq<Message>, max: nat, op: Operation, after: seq<Message>) {
    match op
    case SetSystemTo(content) => after == [System(content)] + WithoutSystem(before)
    case Add(message) => !message.System? && after == before + [message]
    case Truncate => Truncated(before, max, after)
  }

  ghost predicate IsRun(states: seq<seq<Message>>, max: nat, ops: seq<Operation>) {
    && |states| == |ops| + 1 && states[0] == []
    && forall k :: 0 <= k < |ops| ==> Operates(states[k], max, ops[k], states[k + 1])
  }

  /** Over every run there is at most one system message, and it is first. */
  lemma {:induction false} OneSystemAlways(states: seq<seq<Message>>, max: nat, ops: seq<Operation>, k: nat)
    requires IsRun(states, max, ops) && k < |states|
    ensures OneSystem(states[k])
  {
    if k > 0 {
      OneSystemAlways(states, max, ops, k - 1);
      assert Operates(states[k - 1], max, ops[k - 1], states[k]);
      OperateKeeps(states[k - 1], max, ops[k - 1], states[k]);
    }
  }

  lemma OperateKeeps(before: seq<Message>, max: nat, op: Operation, after: seq<Message>)
    requires OneSystem(before) && Operates(before, max, op, after)
    ensures OneSystem(after)
  {
  }

  /** The system message set last survives every later addition and truncation. */
  lemma {:induction false} SystemSurvives(states: seq<seq<Message>>, max: nat, ops: seq<Operation>, at: nat, k: nat)
    requires IsRun(states, max, ops) && at < k < |states| && ops[at].SetSystemTo?
    requires forall j :: at < j < k ==> !ops[j].SetSystemTo?
    ensures states[k] != [] && states[k][0] == System(ops[at].content)
    decreases k
  {
    hide Total, LongestFit;
    assert Operates(states[k - 1], max, ops[k - 1], states[k]);
    if k > at + 1 {
      SystemSurvives(states, max, ops, at, k - 1);
    }
  }

  // ── what a message weighs ──

  /** `t` is a quarter of the bytes, rounded down, and at least one. */
  predicate Weighs(t: nat, bytes: nat) {
    t >= 1 && bytes < 4 * (t + 1) && (t > 1 ==> 4 * t <= bytes)
  }

  /** A message weighs a quarter of the bytes of its text; a tool result that of its content alone. */
  lemma EstimateExactly(text: string, id: string)
    ensures Weighs(Estimate(System(text)), Len(text)) && Weighs(Estimate(User(text)), Len(text))
    ensures Weighs(Estimate(Assistant(text)), Len(text)) && Weighs(Estimate(ToolResult(id, text)), Len(text))
  {
  }

  /** Tool calls weigh a quarter of the bytes of their names, arguments and identifiers together. */
  lemma CallsWeigh(calls: seq<ToolCall>)
    ensures Weighs(Estimate(AssistantToolCalls(calls)), CallsLen(calls))
  {
  }

  lemma {:induction false} CallsLenAppend(calls: seq<ToolCall>, call: ToolCall)
    ensures CallsLen([]) == 0
    ensures CallsLen(calls + [call]) == CallsLen(calls) + Len(call.name) + Len(call.argumentsText) + Len(call.id)
  {
    if calls != [] {
      CallsLenAppend(calls[1..], call);
      assert (calls + [call])[1..] == calls[1..] + [call];
    }
  }

  /** Only one number is that weight. */
  lemma WeighsOne(t: nat, u: nat, bytes: nat)
    requires Weighs(t, bytes) && Weighs(u, bytes)
    ensures t == u
  {
  }
}
