/** Collecting a streamed model response, and the default way of streaming one. */
module Streaming {
  import opened Sequences
  import opened Wrappers
  import opened JsonValues

  datatype ToolCall = ToolCall(id: string, name: string, arguments: Json)

  datatype Response = Message(text: string) | ToolCalls(calls: seq<ToolCall>)

  datatype Chunk =
    | TextDelta(delta: string)
    | ToolCallDelta(index: nat, id: Option<string>, name: Option<string>, argumentsDelta: string)
    | Done

  datatype Builder = Builder(id: string, name: string, arguments: string)

  /** Unreadable arguments become the empty object. */
  function Build(b: Builder, parse: string -> Option<Json>): ToolCall {
    ToolCall(b.id, b.name, parse(b.arguments).GetOr(Obj(map[])))
  }

  // ── what a stream says, read off per kind and per index ──

  /** All text deltas, concatenated. */
  function TextOf(chunks: seq<Chunk>): string {
    if chunks == [] then ""
    else if Last(chunks).TextDelta? then TextOf(Init(chunks)) + Last(chunks).delta
    else TextOf(Init(chunks))
  }

  predicate IsFor(chunk: Chunk, index: nat) {
    chunk.ToolCallDelta? && chunk.index == index
  }

  function Updated(b: Builder, chunk: Chunk, index: nat): Builder {
    if IsFor(chunk, index) then
      Builder(chunk.id.GetOr(b.id), chunk.name.GetOr(b.name), b.arguments + chunk.argumentsDelta)
    else b
  }

  /** What the deltas of one index add up to: the last id, the last name, all argument text. */
  function BuilderOf(chunks: seq<Chunk>, index: nat): Builder {
    if chunks == [] then Builder("", "", "")
    else Updated(BuilderOf(Init(chunks), index), Last(chunks), index)
  }

  /** One more than the largest index. */
  function SlotsOf(chunks: seq<Chunk>): nat {
    if chunks == [] then 0
    else
      var n := SlotsOf(Init(chunks));
      if Last(chunks).ToolCallDelta? && Last(chunks).index >= n then Last(chunks).index + 1 else n
  }

  function ResponseOf(chunks: seq<Chunk>, parse: string -> Option<Json>): Response {
    if SlotsOf(chunks) > 0 then
      ToolCalls(seq(SlotsOf(chunks), i requires 0 <= i => Build(BuilderOf(chunks, i), parse)))
    else Message(TextOf(chunks))
  }

  /** Where reading stops: at the first error or `Done`, or at the end. */
  function Cut<E>(stream: seq<Result<Chunk, E>>): (n: nat)
    ensures n <= |stream|
    ensures forall i :: 0 <= i < n ==> stream[i].Ok? && !stream[i].value.Done?
    ensures n < |stream| ==> stream[n].Err? || stream[n].value.Done?
  {
    if stream == [] || stream[0].Err? || stream[0].value.Done? then 0 else 1 + Cut(stream[1..])
  }

  function Values<E>(stream: seq<Result<Chunk, E>>): (r: seq<Chunk>)
    requires forall i :: 0 <= i < |stream| ==> stream[i].Ok?
    ensures |r| == |stream| && forall i :: 0 <= i < |r| ==> r[i] == stream[i].value
  {
    seq(|stream|, i requires 0 <= i < |stream| => stream[i].value)
  }

  /** The collected response of a whole stream: an error before `Done` ends the collection with that error. */
  function Collected<E>(stream: seq<Result<Chunk, E>>, parse: string -> Option<Json>): Result<Response, E> {
    var n := Cut(stream);
    if n < |stream| && stream[n].Err? then Err(stream[n].error)
    else Ok(ResponseOf(Values(stream[..n]), parse))
  }

  // ── the collecting loop ──

  ghost predicate Gathers(chunks: seq<Chunk>, textBuf: string, toolCalls: seq<Builder>) {
    && textBuf == TextOf(chunks) && |toolCalls| == SlotsOf(chunks)
    && forall i :: 0 <= i < |toolCalls| ==> toolCalls[i] == BuilderOf(chunks, i)
  }

  lemma {:induction false} BeyondSlots(chunks: seq<Chunk>, index: nat)
    requires index >= SlotsOf(chunks)
    ensures BuilderOf(chunks, index) == Builder("", "", "")
  {
    if chunks != [] {
      BeyondSlots(Init(chunks), index);
    }
  }

  lemma GatherPush(chunks: seq<Chunk>, chunk: Chunk, index: nat)
    ensures TextOf(chunks + [chunk]) == if chunk.TextDelta? then TextOf(chunks) + chunk.delta else TextOf(chunks)
    ensures SlotsOf(chunks + [chunk])
         == var n := SlotsOf(chunks); if chunk.ToolCallDelta? && chunk.index >= n then chunk.index + 1 else n
    ensures BuilderOf(chunks + [chunk], index) == Updated(BuilderOf(chunks, index), chunk, index)
  {
  }

  method AddDelta(toolCalls: seq<Builder>, chunk: Chunk, ghost chunks: seq<Chunk>) returns (r: seq<Builder>)
    requires chunk.ToolCallDelta? && Gathers(chunks, TextOf(chunks), toolCalls)
    ensures Gathers(chunks + [chunk], TextOf(chunks), r)
  {
    hide TextOf, SlotsOf, BuilderOf;
    r := toolCalls;
    while |r| <= chunk.index
      invariant |toolCalls| <= |r| && (|r| == |toolCalls| || |r| <= chunk.index + 1)
      invariant forall i :: 0 <= i < |r| ==> r[i] == BuilderOf(chunks, i)
    {
      BeyondSlots(chunks, |r|);
      r := r + [Builder("", "", "")];
    }
    var slot := r[chunk.index];
    if chunk.id.Some? {
      slot := slot.(id := chunk.id.value);
    }
    if chunk.name.Some? {
      slot := slot.(name := chunk.name.value);
    }
    slot := slot.(arguments := slot.arguments + chunk.argumentsDelta);
    r := r[chunk.index := slot];
    forall i: nat | i < |r| ensures r[i] == BuilderOf(chunks + [chunk], i) {
      GatherPush(chunks, chunk, i);
    }
    GatherPush(chunks, chunk, 0);
  }

  method Collect<E>(stream: seq<Result<Chunk, E>>, parse: string -> Option<Json>) returns (result: Result<Response, E>)
    ensures result == Collected(stream, parse)
  {
    hide TextOf, SlotsOf, BuilderOf;
    var textBuf, toolCalls: seq<Builder> := "", [];
    var i := 0;
    NothingGathered();
    assert stream[..0] == [] && Values(stream[..0]) == [];
    while i < |stream|
      invariant 0 <= i <= Cut(stream)
      invariant Gathers(Values(stream[..i]), textBuf, toolCalls)
    {
      if stream[i].Err? {
        return Err(stream[i].error);
      }
      var chunk := stream[i].value;
      if chunk.Done? {
        break;
      }
      assert Values(stream[..i + 1]) == Values(stream[..i]) + [chunk];
      if chunk.TextDelta? {
        forall k: nat ensures BuilderOf(Values(stream[..i]) + [chunk], k) == BuilderOf(Values(stream[..i]), k) {
          GatherPush(Values(stream[..i]), chunk, k);
        }
        GatherPush(Values(stream[..i]), chunk, 0);
        textBuf := textBuf + chunk.delta;
      } else {
        GatherPush(Values(stream[..i]), chunk, 0);
        toolCalls := AddDelta(toolCalls, chunk, Values(stream[..i]));
      }
      i := i + 1;
    }
    assert i == Cut(stream);
    if toolCalls != [] {
      var calls := BuildAll(toolCalls, parse);
      assert calls == ResponseOf(Values(stream[..i]), parse).calls;
      return Ok(ToolCalls(calls));
    }
    return Ok(Message(textBuf));
  }

  /** Building consumes the slots in order. */
  method BuildAll(builders: seq<Builder>, parse: string -> Option<Json>) returns (calls: seq<ToolCall>)
    ensures |calls| == |builders| && forall i :: 0 <= i < |calls| ==> calls[i] == Build(builders[i], parse)
  {
    calls := [];
    while |calls| < |builders|
      invariant |calls| <= |builders| && forall i :: 0 <= i < |calls| ==> calls[i] == Build(builders[i], parse)
    {
      calls := calls + [Build(builders[|calls|], parse)];
    }
  }

  lemma NothingGathered()
    ensures Gathers([], "", [])
  {
  }

  // ── the order of independent deltas does not matter ──

  function TextOnly(chunks: seq<Chunk>): seq<string> {
    if chunks == [] then []
    else if Last(chunks).TextDelta? then TextOnly(Init(chunks)) + [Last(chunks).delta]
    else TextOnly(Init(chunks))
  }

  function Only(chunks: seq<Chunk>, index: nat): seq<Chunk> {
    if chunks == [] then []
    else if IsFor(Last(chunks), index) then Only(Init(chunks), index) + [Last(chunks)]
    else Only(Init(chunks), index)
  }

  function Concat(texts: seq<string>): string {
    if texts == [] then "" else Concat(Init(texts)) + Last(texts)
  }

  /** Two streams with the same text deltas and, for each index, the same deltas of that index. */
  ghost predicate SameDeltas(a: seq<Chunk>, b: seq<Chunk>) {
    TextOnly(a) == TextOnly(b) && forall index: nat :: Only(a, index) == Only(b, index)
  }

  lemma {:induction false} TextOnlyTells(chunks: seq<Chunk>)
    ensures TextOf(chunks) == Concat(TextOnly(chunks))
  {
    if chunks != [] {
      TextOnlyTells(Init(chunks));
      if Last(chunks).TextDelta? {
        assert Init(TextOnly(chunks)) == TextOnly(Init(chunks));
      }
    }
  }

  lemma {:induction false} OnlyTells(chunks: seq<Chunk>, index: nat)
    ensures BuilderOf(chunks, index) == BuilderOf(Only(chunks, index), index)
  {
    if chunks != [] {
      OnlyTells(Init(chunks), index);
      if IsFor(Last(chunks), index) {
        assert Init(Only(chunks, index)) == Only(Init(chunks), index);
      }
    }
  }

  /** There are slots up to the largest index that has a delta. */
  lemma {:induction false} SlotsTell(chunks: seq<Chunk>)
    ensures forall index: nat :: Only(chunks, index) != [] ==> index < SlotsOf(chunks)
    ensures SlotsOf(chunks) > 0 ==> Only(chunks, SlotsOf(chunks) - 1) != []
  {
    if chunks != [] {
      SlotsTell(Init(chunks));
    }
  }

  /** The response depends only on the text deltas and, index by index, on that index's deltas: any interleaving
      of them collects to the same response. */
  lemma InterleavingIrrelevant(a: seq<Chunk>, b: seq<Chunk>, parse: string -> Option<Json>)
    requires SameDeltas(a, b)
    ensures ResponseOf(a, parse) == ResponseOf(b, parse)
  {
    hide TextOf, BuilderOf, SlotsOf, Only, TextOnly, Concat;
    TextOnlyTells(a);
    TextOnlyTells(b);
    SlotsTell(a);
    SlotsTell(b);
    assert SlotsOf(a) == SlotsOf(b) by {
      if SlotsOf(a) > 0 { assert Only(b, SlotsOf(a) - 1) != []; }
      if SlotsOf(b) > 0 { assert Only(a, SlotsOf(b) - 1) != []; }
    }
    forall i: nat ensures BuilderOf(a, i) == BuilderOf(b, i) {
      OnlyTells(a, i);
      OnlyTells(b, i);
    }
  }

  predicate Independent(a: Chunk, b: Chunk) {
    (a.TextDelta? && b.ToolCallDelta?) || (a.ToolCallDelta? && b.TextDelta?)
    || (a.ToolCallDelta? && b.ToolCallDelta? && a.index != b.index)
  }

  lemma {:induction false} OnlyAppend(a: seq<Chunk>, b: seq<Chunk>, index: nat)
    ensures Only(a + b, index) == Only(a, index) + Only(b, index)
    ensures TextOnly(a + b) == TextOnly(a) + TextOnly(b)
  {
    if b == [] {
      assert a + b == a;
    } else {
      OnlyAppend(a, Init(b), index);
      assert Init(a + b) == a + Init(b);
    }
  }

  lemma IndependentPair(a: Chunk, b: Chunk, index: nat)
    requires Independent(a, b)
    ensures Only([a, b], index) == Only([b, a], index) && TextOnly([a, b]) == TextOnly([b, a])
  {
  }

  /** Swapping neighbours of different indices, or text with a tool delta, changes nothing. */
  lemma SwapIrrelevant(before: seq<Chunk>, a: Chunk, b: Chunk, after: seq<Chunk>, parse: string -> Option<Json>)
    requires Independent(a, b)
    ensures ResponseOf(before + [a, b] + after, parse) == ResponseOf(before + [b, a] + after, parse)
  {
    hide Only, TextOnly;
    var x, y := before + [a, b] + after, before + [b, a] + after;
    forall index: nat ensures Only(x, index) == Only(y, index) && TextOnly(x) == TextOnly(y) {
      IndependentPair(a, b, index);
      OnlyAppend(before, [a, b], index);
      OnlyAppend(before, [b, a], index);
      OnlyAppend(before + [a, b], after, index);
      OnlyAppend(before + [b, a], after, index);
    }
    assert Only(x, 0) == Only(y, 0);
    InterleavingIrrelevant(x, y, parse);
  }

  // ── how a delta is cut up does not matter ──

  /** The same text, slots and builders. */
  ghost predicate SameGathering(a: seq<Chunk>, b: seq<Chunk>) {
    && TextOf(a) == TextOf(b) && SlotsOf(a) == SlotsOf(b)
    && forall index: nat :: BuilderOf(a, index) == BuilderOf(b, index)
  }

  lemma {:induction false} SameGatheringExtends(a: seq<Chunk>, b: seq<Chunk>, after: seq<Chunk>)
    requires SameGathering(a, b)
    ensures SameGathering(a + after, b + after)
  {
    hide TextOf, SlotsOf, BuilderOf;
    if after == [] {
      assert a + after == a && b + after == b;
    } else {
      SameGatheringExtends(a, b, Init(after));
      assert a + after == a + Init(after) + [Last(after)];
      assert b + after == b + Init(after) + [Last(after)];
      forall index: nat ensures BuilderOf(a + after, index) == BuilderOf(b + after, index) {
        GatherPush(a + Init(after), Last(after), index);
        GatherPush(b + Init(after), Last(after), index);
      }
      GatherPush(a + Init(after), Last(after), 0);
      GatherPush(b + Init(after), Last(after), 0);
    }
  }

  lemma SameGatheringResponds(a: seq<Chunk>, b: seq<Chunk>, parse: string -> Option<Json>)
    requires SameGathering(a, b)
    ensures ResponseOf(a, parse) == ResponseOf(b, parse)
  {
  }

  lemma TwoPushes(before: seq<Chunk>, x: Chunk, y: Chunk, index: nat)
    ensures before + [x, y] == before + [x] + [y]
    ensures TextOf(before + [x, y])
         == TextOf(before) + (if x.TextDelta? then x.delta else "") + (if y.TextDelta? then y.delta else "")
  {
  }

  /** Cutting a text delta in two changes nothing. */
  lemma TextSplitIrrelevant(before: seq<Chunk>, d: string, e: string, after: seq<Chunk>, parse: string -> Option<Json>)
    ensures ResponseOf(before + [TextDelta(d + e)] + after, parse)
         == ResponseOf(before + [TextDelta(d), TextDelta(e)] + after, parse)
  {
    hide TextOf, SlotsOf, BuilderOf;
    var x, y := before + [TextDelta(d + e)], before + [TextDelta(d), TextDelta(e)];
    forall index: nat ensures BuilderOf(x, index) == BuilderOf(y, index) && SlotsOf(x) == SlotsOf(y) {
      GatherPush(before, TextDelta(d + e), index);
      GatherPush(before, TextDelta(d), index);
      GatherPush(before + [TextDelta(d)], TextDelta(e), index);
      TwoPushes(before, TextDelta(d), TextDelta(e), index);
    }
    TwoPushes(before, TextDelta(d), TextDelta(e), 0);
    GatherPush(before, TextDelta(d + e), 0);
    assert TextOf(before) + (d + e) == TextOf(before) + d + e;
    assert BuilderOf(x, 0) == BuilderOf(y, 0);
    SameGatheringExtends(x, y, after);
    SameGatheringResponds(x + after, y + after, parse);
  }

  /** Cutting the argument text of a tool delta in two, with id and name on the first half, changes nothing. */
  lemma ArgumentSplitIrrelevant(before: seq<Chunk>, whole: Chunk, d: string, e: string, after: seq<Chunk>,
                                parse: string -> Option<Json>)
    requires whole.ToolCallDelta? && whole.argumentsDelta == d + e
    ensures var first, second := whole.(argumentsDelta := d), ToolCallDelta(whole.index, None, None, e);
            ResponseOf(before + [whole] + after, parse) == ResponseOf(before + [first, second] + after, parse)
  {
    hide TextOf, SlotsOf, BuilderOf;
    var first, second := whole.(argumentsDelta := d), ToolCallDelta(whole.index, None, None, e);
    var x, y := before + [whole], before + [first, second];
    forall index: nat ensures BuilderOf(x, index) == BuilderOf(y, index) && SlotsOf(x) == SlotsOf(y) {
      GatherPush(before, whole, index);
      GatherPush(before, first, index);
      GatherPush(before + [first], second, index);
      TwoPushes(before, first, second, index);
      var args := BuilderOf(before, index).arguments;
      assert args + (d + e) == args + d + e;
    }
    TwoPushes(before, first, second, 0);
    GatherPush(before, whole, 0);
    assert TextOf(before) + "" + "" == TextOf(before);
    assert BuilderOf(x, 0) == BuilderOf(y, 0);
    SameGatheringExtends(x, y, after);
    SameGatheringResponds(x + after, y + after, parse);
  }

  // ── the default stream ──

  function CallChunks(calls: seq<ToolCall>, toText: Json -> string): (r: seq<Chunk>)
    ensures |r| == |calls|
  {
    seq(|calls|, i requires 0 <= i < |calls| =>
      ToolCallDelta(i, Some(calls[i].id), Some(calls[i].name), toText(calls[i].arguments)))
  }

  /** The chunks the default `chat_stream` yields for a response. */
  function ChatStream(response: Response, toText: Json -> string): seq<Chunk> {
    match response
    case Message(text) => [TextDelta(text), Done]
    case ToolCalls(calls) => CallChunks(calls, toText) + [Done]
  }

  function AllOk<E>(chunks: seq<Chunk>): (r: seq<Result<Chunk, E>>)
    ensures |r| == |chunks| && forall i :: 0 <= i < |r| ==> r[i] == Ok(chunks[i])
  {
    seq(|chunks|, i requires 0 <= i < |chunks| => Ok(chunks[i]))
  }

  lemma {:induction false} CallChunksGather(calls: seq<ToolCall>, toText: Json -> string, index: nat)
    ensures var chunks := CallChunks(calls, toText);
            && SlotsOf(chunks) == |calls|
            && (index < |calls| ==>
                  BuilderOf(chunks, index)
                  == Builder(calls[index].id, calls[index].name, toText(calls[index].arguments)))
  {
    hide BuilderOf, SlotsOf;
    if calls == [] {
      NothingGathered();
    } else {
      var chunks, front := CallChunks(calls, toText), CallChunks(Init(calls), toText);
      assert chunks == front + [Last(chunks)];
      CallChunksGather(Init(calls), toText, index);
      GatherPush(front, Last(chunks), index);
      BeyondSlots(front, |calls| - 1);
      assert "" + Last(chunks).argumentsDelta == Last(chunks).argumentsDelta;
    }
  }

  lemma CollectedPrefix<E>(chunks: seq<Chunk>, parse: string -> Option<Json>)
    requires forall i :: 0 <= i < |chunks| ==> !chunks[i].Done?
    ensures Collected<E>(AllOk(chunks + [Done]), parse) == Ok(ResponseOf(chunks, parse))
  {
    var stream := AllOk<E>(chunks + [Done]);
    var n := Cut(stream);
    assert forall i :: 0 <= i < |chunks| ==> stream[i] == Ok(chunks[i]);
    assert stream[|chunks|] == Ok(Done);
    assert n == |chunks|;
    assert Values(stream[..n]) == chunks;
  }

  /** Collecting the default stream of a response gives the response back, exactly when it is not an empty list of
      calls: that one comes back as the empty message. */
  lemma ChatStreamRoundTrip<E>(response: Response, toText: Json -> string, parse: string -> Option<Json>)
    requires forall j :: parse(toText(j)) == Some(j)
    ensures Collected<E>(AllOk(ChatStream(response, toText)), parse) == Ok(response) <==> response != ToolCalls([])
    ensures Collected<E>(AllOk(ChatStream(ToolCalls([]), toText)), parse) == Ok(Message(""))
  {
    hide BuilderOf, SlotsOf, TextOf;
    NothingGathered();
    CollectedPrefix<E>([], parse);
    assert CallChunks([], toText) == [];
    match response
    case Message(text) =>
      CollectedPrefix<E>([TextDelta(text)], parse);
      GatherPush([], TextDelta(text), 0);
      assert [] + [TextDelta(text)] == [TextDelta(text)] && "" + text == text;
      assert [TextDelta(text)] + [Done] == [TextDelta(text), Done];
    case ToolCalls(calls) =>
      var chunks := CallChunks(calls, toText);
      CollectedPrefix<E>(chunks, parse);
      CallChunksGather(calls, toText, 0);
      forall i: nat | i < |calls| ensures Build(BuilderOf(chunks, i), parse) == calls[i] {
        CallChunksGather(calls, toText, i);
      }
      if calls != [] {
        assert ResponseOf(chunks, parse).calls == calls;
      }
  }

  // ── what a stream collects to ──

  predicate HasToolDelta(chunks: seq<Chunk>) {
    exists i :: 0 <= i < |chunks| && chunks[i].ToolCallDelta?
  }

  lemma {:induction false} SlotsExactly(chunks: seq<Chunk>)
    ensures forall i :: 0 <= i < |chunks| && chunks[i].ToolCallDelta? ==> chunks[i].index < SlotsOf(chunks)
    ensures SlotsOf(chunks) > 0 ==>
              exists i :: 0 <= i < |chunks| && chunks[i].ToolCallDelta? && chunks[i].index + 1 == SlotsOf(chunks)
  {
    if chunks != [] {
      var front := Init(chunks);
      SlotsExactly(front);
      assert forall i :: 0 <= i < |front| ==> chunks[i] == front[i];
      if SlotsOf(front) > 0 {
        var i :| 0 <= i < |front| && front[i].ToolCallDelta? && front[i].index + 1 == SlotsOf(front);
        assert chunks[i] == front[i];
      }
      assert chunks[|chunks| - 1] == Last(chunks);
    }
  }

  /** Any tool delta makes the response a list of calls, as long as the largest index asks for, and the text is lost;
      without one the response is all the text. */
  lemma ToolDeltaDecides(chunks: seq<Chunk>, parse: string -> Option<Json>)
    ensures ResponseOf(chunks, parse).ToolCalls? <==> HasToolDelta(chunks)
    ensures !HasToolDelta(chunks) ==> ResponseOf(chunks, parse) == Message(Concat(TextOnly(chunks)))
    ensures HasToolDelta(chunks) ==>
              var n := |ResponseOf(chunks, parse).calls|;
              && (forall i :: 0 <= i < |chunks| && chunks[i].ToolCallDelta? ==> chunks[i].index < n)
              && exists i :: 0 <= i < |chunks| && chunks[i].ToolCallDelta? && chunks[i].index + 1 == n
  {
    hide SlotsOf, BuilderOf, TextOf;
    SlotsExactly(chunks);
    TextOnlyTells(chunks);
  }

  /** The last of the index's deltas that brings an id. */
  predicate BringsId(chunks: seq<Chunk>, index: nat, k: nat) {
    && k < |chunks| && IsFor(chunks[k], index) && chunks[k].id.Some?
    && forall j :: k < j < |chunks| && IsFor(chunks[j], index) ==> chunks[j].id.None?
  }

  predicate BringsName(chunks: seq<Chunk>, index: nat, k: nat) {
    && k < |chunks| && IsFor(chunks[k], index) && chunks[k].name.Some?
    && forall j :: k < j < |chunks| && IsFor(chunks[j], index) ==> chunks[j].name.None?
  }

  /** The argument texts of the index's deltas, in order. */
  function ArgumentTexts(chunks: seq<Chunk>, index: nat): seq<string> {
    if chunks == [] then []
    else if IsFor(Last(chunks), index) then ArgumentTexts(Init(chunks), index) + [Last(chunks).argumentsDelta]
    else ArgumentTexts(Init(chunks), index)
  }

  lemma {:induction false} BuilderExactly(chunks: seq<Chunk>, index: nat)
    ensures var b := BuilderOf(chunks, index);
            && (forall k: nat :: BringsId(chunks, index, k) ==> b.id == chunks[k].id.value)
            && ((forall k: nat :: !BringsId(chunks, index, k)) ==> b.id == "")
            && (forall k: nat :: BringsName(chunks, index, k) ==> b.name == chunks[k].name.value)
            && ((forall k: nat :: !BringsName(chunks, index, k)) ==> b.name == "")
            && b.arguments == Concat(ArgumentTexts(chunks, index))
  {
    if chunks != [] {
      hide BringsId, BringsName, Concat;
      var front, n := Init(chunks), |chunks| - 1;
      BuilderExactly(front, index);
      BringsBefore(chunks, index);
      if IsFor(Last(chunks), index) { ConcatPush(ArgumentTexts(front, index), Last(chunks).argumentsDelta); }
    } else {
      assert Concat([]) == "";
    }
  }

  lemma ConcatPush(texts: seq<string>, text: string)
    ensures Concat(texts + [text]) == Concat(texts) + text
  {
  }

  /** Whether the newest delta brings an id or a name, or leaves the ones before it standing. */
  lemma BringsBefore(chunks: seq<Chunk>, index: nat)
    requires chunks != []
    ensures var front, n, last := Init(chunks), |chunks| - 1, Last(chunks);
            && (forall k: nat :: BringsId(chunks, index, k) <==>
                  if IsFor(last, index) && last.id.Some? then k == n else BringsId(front, index, k))
            && (forall k: nat :: BringsId(front, index, k) ==> k < n && chunks[k] == front[k])
            && (forall k: nat :: BringsName(chunks, index, k) <==>
                  if IsFor(last, index) && last.name.Some? then k == n else BringsName(front, index, k))
            && (forall k: nat :: BringsName(front, index, k) ==> k < n && chunks[k] == front[k])
            && chunks[n] == last
  {
    var front, n := Init(chunks), |chunks| - 1;
    assert forall k :: 0 <= k < n ==> chunks[k] == front[k];
    forall k: nat
      ensures BringsId(chunks, index, k) <==>
                if IsFor(Last(chunks), index) && Last(chunks).id.Some? then k == n else BringsId(front, index, k)
      ensures BringsName(chunks, index, k) <==>
                if IsFor(Last(chunks), index) && Last(chunks).name.Some? then k == n else BringsName(front, index, k)
    {
      assert k < n ==> chunks[n] == Last(chunks);
    }
  }

  /** Each call carries the last id and the last name its index was given, and what all its argument texts together parse
      to, or the empty object if they do not parse. */
  lemma CallMeans(chunks: seq<Chunk>, index: nat, parse: string -> Option<Json>)
    requires HasToolDelta(chunks) && ResponseOf(chunks, parse).ToolCalls?
    requires index < |ResponseOf(chunks, parse).calls|
    ensures var call, text := ResponseOf(chunks, parse).calls[index], Concat(ArgumentTexts(chunks, index));
            && (forall k: nat :: BringsId(chunks, index, k) ==> call.id == chunks[k].id.value)
            && ((forall k: nat :: !BringsId(chunks, index, k)) ==> call.id == "")
            && (forall k: nat :: BringsName(chunks, index, k) ==> call.name == chunks[k].name.value)
            && ((forall k: nat :: !BringsName(chunks, index, k)) ==> call.name == "")
            && (parse(text).Some? ==> call.arguments == parse(text).value)
            && (parse(text).None? ==> call.arguments == Obj(map[]))
  {
    hide SlotsOf, BuilderOf, BringsId, BringsName, Concat;
    BuilderExactly(chunks, index);
  }
}
