/** The message debouncer: rapid messages of one sender are held and emitted as one. */
module Debounce {
  import opened Wrappers
  import opened JsonValues
  import opened Sequences
  import opened Text

  datatype ChatType = Dm | Group | SuperGroup | Channel | Unknown

  datatype Message = Message(
    id: string,
    sender: string,
    content: string,
    channel: string,
    replyTarget: Option<string>,
    timestamp: int,
    threadTs: Option<string>,
    metadata: Json,
    chatType: ChatType,
    botMentioned: bool,
    groupId: Option<string>)

  datatype Batch = Batch(firstMsg: Message, fragments: seq<string>, charCount: nat, lastActivity: int)

  type Pending = map<string, Batch>

  /** A batch that has left the debouncer. */
  datatype Emission = Emission(key: string, batch: Batch)

  function DebounceKey(msg: Message): string {
    match msg.groupId
    case Some(gid) => msg.channel + ":" + gid + ":" + msg.sender
    case None => msg.channel + ":" + msg.sender
  }

  function TotalLen(fragments: seq<string>): nat {
    if fragments == [] then 0 else TotalLen(Init(fragments)) + Len(Last(fragments))
  }

  function Join(fragments: seq<string>): string {
    if fragments == [] then ""
    else if |fragments| == 1 then fragments[0]
    else fragments[0] + "\n" + Join(fragments[1..])
  }

  function Combine(batch: Batch, id: string, timestamp: int): Message {
    batch.firstMsg.(id := id, content := Join(batch.fragments), timestamp := timestamp)
  }

  // ── what the buffer promises ──

  /** The contents accepted under `key`, in order. */
  function AcceptedFor(accepted: seq<Message>, key: string): seq<string> {
    if accepted == [] then []
    else if DebounceKey(Last(accepted)) == key then AcceptedFor(Init(accepted), key) + [Last(accepted).content]
    else AcceptedFor(Init(accepted), key)
  }

  /** The fragments emitted under `key`, in order. */
  function EmittedFor(emitted: seq<Emission>, key: string): seq<string> {
    if emitted == [] then []
    else if Last(emitted).key == key then EmittedFor(Init(emitted), key) + Last(emitted).batch.fragments
    else EmittedFor(Init(emitted), key)
  }

  function PendingFor(pending: Pending, key: string): seq<string> {
    if key in pending then pending[key].fragments else []
  }

  /** For every key, what went out followed by what is still held is exactly what came in, in order, once each. */
  ghost predicate Conserved(accepted: seq<Message>, emitted: seq<Emission>, pending: Pending) {
    forall key :: AcceptedFor(accepted, key) == EmittedFor(emitted, key) + PendingFor(pending, key)
  }

  /** The batch belongs to `key`, starts with its first message, counts its characters right, and stays below the
      limit once it holds more than one fragment. */
  predicate GoodBatch(batch: Batch, key: string, maxChars: nat) {
    && batch.fragments != [] && DebounceKey(batch.firstMsg) == key && batch.firstMsg.content == batch.fragments[0]
    && batch.charCount == TotalLen(batch.fragments)
    && (|batch.fragments| >= 2 ==> batch.charCount < maxChars)
  }

  function FirstBatch(msg: Message, now: int): Batch {
    Batch(msg, [msg.content], Len(msg.content), now)
  }

  function Grown(batch: Batch, msg: Message, now: int): Batch {
    Batch(batch.firstMsg, batch.fragments + [msg.content], batch.charCount + Len(msg.content), now)
  }

  lemma AcceptedPush(accepted: seq<Message>, msg: Message, key: string)
    ensures AcceptedFor(accepted + [msg], key)
         == if DebounceKey(msg) == key then AcceptedFor(accepted, key) + [msg.content] else AcceptedFor(accepted, key)
  {
  }

  lemma EmittedPush(emitted: seq<Emission>, e: Emission, key: string)
    ensures EmittedFor(emitted + [e], key)
         == if e.key == key then EmittedFor(emitted, key) + e.batch.fragments else EmittedFor(emitted, key)
  {
  }

  /** Holding one more fragment under the message's own key conserves. */
  lemma HoldKeeps(accepted: seq<Message>, emitted: seq<Emission>, pending: Pending, msg: Message, batch: Batch)
    requires Conserved(accepted, emitted, pending)
    requires batch.fragments == PendingFor(pending, DebounceKey(msg)) + [msg.content]
    ensures Conserved(accepted + [msg], emitted, pending[DebounceKey(msg) := batch])
  {
    hide AcceptedFor, EmittedFor;
    var after := pending[DebounceKey(msg) := batch];
    forall key
      ensures AcceptedFor(accepted + [msg], key) == EmittedFor(emitted, key) + PendingFor(after, key)
    {
      AcceptedPush(accepted, msg, key);
      assert AcceptedFor(accepted, key) == EmittedFor(emitted, key) + PendingFor(pending, key);
      if key == DebounceKey(msg) {
        assert EmittedFor(emitted, key) + PendingFor(pending, key) + [msg.content]
            == EmittedFor(emitted, key) + batch.fragments;
      }
    }
  }

  /** Letting a pending batch go conserves. */
  lemma EmitKeeps(accepted: seq<Message>, emitted: seq<Emission>, pending: Pending, k: string)
    requires Conserved(accepted, emitted, pending) && k in pending
    ensures Conserved(accepted, emitted + [Emission(k, pending[k])], pending - {k})
  {
    hide AcceptedFor, EmittedFor;
    forall key
      ensures AcceptedFor(accepted, key)
           == EmittedFor(emitted + [Emission(k, pending[k])], key) + PendingFor(pending - {k}, key)
    {
      EmittedPush(emitted, Emission(k, pending[k]), key);
      assert AcceptedFor(accepted, key) == EmittedFor(emitted, key) + PendingFor(pending, key);
      assert EmittedFor(emitted, k) + pending[k].fragments + [] == EmittedFor(emitted, k) + pending[k].fragments;
    }
  }

  lemma GrownGood(batch: Batch, key: string, maxChars: nat, msg: Message, now: int)
    requires GoodBatch(batch, key, maxChars)
    ensures var g := Grown(batch, msg, now);
            g.charCount == TotalLen(g.fragments) && (GoodBatch(g, key, maxChars) <==> g.charCount < maxChars)
  {
  }

  lemma FirstGood(msg: Message, now: int, maxChars: nat)
    ensures GoodBatch(FirstBatch(msg, now), DebounceKey(msg), maxChars)
  {
  }

  // ── the debouncer ──

  class SimpleDebouncer {
    const window: int
    const maxChars: nat
    var pending: Pending
    ghost var accepted: seq<Message>
    ghost var emitted: seq<Emission>

    ghost predicate Valid()
      reads this
    {
      && Conserved(accepted, emitted, pending)
      && forall key :: key in pending ==> GoodBatch(pending[key], key, maxChars)
    }

    constructor (window: int, maxChars: nat)
      ensures Valid() && accepted == [] && emitted == [] && pending == map[]
      ensures this.window == window && this.maxChars == maxChars
    {
      this.window, this.maxChars := window, maxChars;
      pending, accepted, emitted := map[], [], [];
    }

    method Accept(msg: Message, now: int, id: string, wall: int) returns (out: Option<Message>)
      requires Valid()
      modifies this
      ensures Valid() && accepted == old(accepted) + [msg]
      ensures var key := DebounceKey(msg);
              if key !in old(pending) then
                out.None? && emitted == old(emitted) && pending == old(pending)[key := FirstBatch(msg, now)]
              else
                var grown := Grown(old(pending)[key], msg, now);
                if TotalLen(grown.fragments) >= maxChars then
                  && out == Some(Combine(grown, id, wall))
                  && emitted == old(emitted) + [Emission(key, grown)] && pending == old(pending) - {key}
                else
                  out.None? && emitted == old(emitted) && pending == old(pending)[key := grown]
    {
      hide AcceptedFor, EmittedFor, TotalLen, Len, Conserved;
      var key := DebounceKey(msg);
      accepted := accepted + [msg];
      if key in pending {
        var batch := pending[key];
        GrownGood(batch, key, maxChars, msg, now);
        HoldKeeps(old(accepted), emitted, pending, msg, Grown(batch, msg, now));
        batch := batch.(charCount := batch.charCount + Len(msg.content));
        batch := batch.(fragments := batch.fragments + [msg.content]);
        batch := batch.(lastActivity := now);
        pending := pending[key := batch];
        if batch.charCount >= maxChars {
          EmitKeeps(accepted, emitted, pending, key);
          emitted := emitted + [Emission(key, batch)];
          pending := pending - {key};
          return Some(Combine(batch, id, wall));
        }
        return None;
      }
      FirstGood(msg, now, maxChars);
      HoldKeeps(old(accepted), emitted, pending, msg, FirstBatch(msg, now));
      pending := pending[key := Batch(msg, [msg.content], Len(msg.content), now)];
      return None;
    }

    /** Removes one batch and combines it: the body of both flush loops. */
    method Release(key: string, id: string, wall: int) returns (message: Message)
      requires Valid() && key in pending
      modifies this
      ensures Valid() && accepted == old(accepted) && pending == old(pending) - {key}
      ensures emitted == old(emitted) + [Emission(key, old(pending)[key])]
      ensures message == Combine(old(pending)[key], id, wall)
    {
      hide Conserved, GoodBatch;
      EmitKeeps(accepted, emitted, pending, key);
      message := Combine(pending[key], id, wall);
      emitted := emitted + [Emission(key, pending[key])];
      pending := pending - {key};
    }

    /** Releases the given keys in turn. */
    method ReleaseEach(keys: seq<string>, ids: nat -> string, wall: int)
      returns (results: seq<Message>, ghost flushed: seq<Emission>)
      requires Valid() && Distinct(keys) && Elements(keys) <= pending.Keys
      modifies this
      ensures Valid() && accepted == old(accepted) && emitted == old(emitted) + flushed
      ensures pending == old(pending) - Elements(keys)
      ensures Flushed(old(pending), keys, flushed) && Combined(flushed, results, ids, wall)
    {
      hide Valid;
      results, flushed := [], [];
      var i := 0;
      assert keys[..0] == [];
      while i < |keys|
        invariant 0 <= i <= |keys| && |flushed| == i
        invariant Valid() && accepted == old(accepted) && emitted == old(emitted) + flushed
        invariant pending == old(pending) - Elements(keys[..i])
        invariant Flushed(old(pending), keys[..i], flushed) && Combined(flushed, results, ids, wall)
      {
        assert keys[..i + 1] == keys[..i] + [keys[i]];
        assert keys[i] in pending;
        var message := Release(keys[i], ids(i), wall);
        flushed := flushed + [Emission(keys[i], old(pending)[keys[i]])];
        results := results + [message];
        i := i + 1;
      }
      assert keys[..i] == keys;
    }

    /** Emits every batch that has been idle for the window; `now` may be older than an activity, which then counts
        as no idle time at all. */
    method FlushExpired(now: int, ids: nat -> string, wall: int)
      returns (results: seq<Message>, ghost keys: seq<string>, ghost flushed: seq<Emission>)
      requires Valid()
      modifies this
      ensures Valid() && accepted == old(accepted) && emitted == old(emitted) + flushed
      ensures Distinct(keys) && Elements(keys) == Expired(old(pending), now, window)
      ensures pending == old(pending) - Expired(old(pending), now, window)
      ensures Flushed(old(pending), keys, flushed) && Combined(flushed, results, ids, wall)
    {
      hide Valid, Flushed, Combined, Elements, Distinct;
      var order := Iterate(pending.Keys);
      var expired: seq<string> := [];
      var i := 0;
      NoElements();
      assert order[..0] == [];
      while i < |order|
        invariant 0 <= i <= |order| && unchanged(this)
        invariant Distinct(expired) && Elements(expired) == Expired(pending, now, window) * Elements(order[..i])
      {
        ElementsPush(order[..i], order[i]);
        ElementsDistinct(order, i);
        assert order[..i + 1] == order[..i] + [order[i]];
        if Idle(pending[order[i]], now) >= window {
          ElementsPush(expired, order[i]);
          expired := expired + [order[i]];
        }
        i := i + 1;
      }
      assert order[..i] == order;
      assert Expired(pending, now, window) * pending.Keys == Expired(pending, now, window);
      keys := expired;
      results, flushed := ReleaseEach(expired, ids, wall);
    }

    /** Emits everything, in whatever order the map drains. */
    method FlushAll(ids: nat -> string, wall: int)
      returns (results: seq<Message>, ghost keys: seq<string>, ghost flushed: seq<Emission>)
      requires Valid()
      modifies this
      ensures Valid() && accepted == old(accepted) && emitted == old(emitted) + flushed
      ensures Distinct(keys) && Elements(keys) == old(pending.Keys) && pending == map[]
      ensures Flushed(old(pending), keys, flushed) && Combined(flushed, results, ids, wall)
    {
      hide Valid, Flushed, Combined, Elements, Distinct;
      var order := Iterate(pending.Keys);
      keys := order;
      results, flushed := ReleaseEach(order, ids, wall);
    }
  }

  /** The keys in some order: a hash map promises none. */
  method Iterate(keys: set<string>) returns (order: seq<string>)
    ensures Distinct(order) && Elements(order) == keys
  {
    hide Elements, Distinct;
    order := [];
    NoElements();
    var todo := keys;
    while todo != {}
      invariant todo <= keys && Distinct(order) && Elements(order) == keys - todo
      decreases |todo|
    {
      var key :| key in todo;
      ElementsPush(order, key);
      order, todo := order + [key], todo - {key};
    }
  }

  ghost function Elements(keys: seq<string>): set<string> {
    set k | k in keys
  }

  lemma ElementsPush(keys: seq<string>, key: string)
    ensures Elements(keys + [key]) == Elements(keys) + {key}
    ensures Distinct(keys) && key !in Elements(keys) ==> Distinct(keys + [key])
  {
  }

  lemma NoElements()
    ensures Elements([]) == {} && Distinct([])
  {
  }

  lemma ElementsDistinct(keys: seq<string>, i: nat)
    requires Distinct(keys) && i < |keys|
    ensures keys[i] in Elements(keys) && keys[i] !in Elements(keys[..i])
  {
  }

  predicate Distinct(keys: seq<string>) {
    forall i, j :: 0 <= i < j < |keys| ==> keys[i] != keys[j]
  }

  /** `Instant::duration_since`, which never goes below zero. */
  function Idle(batch: Batch, now: int): int {
    if now >= batch.lastActivity then now - batch.lastActivity else 0
  }

  ghost function Expired(pending: Pending, now: int, window: int): set<string> {
    set k | k in pending && Idle(pending[k], now) >= window
  }

  /** One emission per key, each the batch that was pending under it. */
  ghost predicate Flushed(before: Pending, keys: seq<string>, flushed: seq<Emission>) {
    |flushed| == |keys|
    && forall i :: 0 <= i < |keys| ==> keys[i] in before && flushed[i] == Emission(keys[i], before[keys[i]])
  }

  /** One message per emission. */
  ghost predicate Combined(flushed: seq<Emission>, results: seq<Message>, ids: nat -> string, wall: int) {
    |results| == |flushed|
    && forall i :: 0 <= i < |results| ==> results[i] == Combine(flushed[i].batch, ids(i), wall)
  }

  // ── keys and texts ──

  /** Text before the first colon. */
  function Head(s: string): string {
    if s == "" || s[0] == ':' then "" else [s[0]] + Head(s[1..])
  }

  predicate ColonFree(s: string) {
    ':' !in s
  }

  lemma {:induction false} HeadOf(a: string, b: string)
    requires ColonFree(a)
    ensures Head(a + ":" + b) == a
  {
    var s := a + ":" + b;
    if a == "" {
      assert s[0] == ':';
    } else {
      assert s[1..] == a[1..] + ":" + b && s[0] == a[0];
      HeadOf(a[1..], b);
    }
  }

  lemma ColonCut(a: string, b: string, c: string, d: string)
    requires ColonFree(a) && ColonFree(c) && a + ":" + b == c + ":" + d
    ensures a == c && b == d
  {
    HeadOf(a, b);
    HeadOf(c, d);
    assert (a + ":" + b)[|a| + 1..] == b;
    assert (c + ":" + d)[|c| + 1..] == d;
  }

  /** The sender, group and channel a key is built from hold no colon. */
  predicate PlainSource(msg: Message) {
    ColonFree(msg.channel) && ColonFree(msg.sender) && (msg.groupId.Some? ==> ColonFree(msg.groupId.value))
  }

  /** Without colons in the names, messages share a key exactly when they share channel, group and sender. */
  lemma KeyIdentifies(m: Message, n: Message)
    requires PlainSource(m) && PlainSource(n)
    ensures DebounceKey(m) == DebounceKey(n)
        <==> m.channel == n.channel && m.groupId == n.groupId && m.sender == n.sender
  {
    if DebounceKey(m) == DebounceKey(n) {
      var p, q := KeyTail(m), KeyTail(n);
      assert DebounceKey(m) == m.channel + ":" + p;
      assert DebounceKey(n) == n.channel + ":" + q;
      ColonCut(m.channel, p, n.channel, q);
      GroupShows(m);
      GroupShows(n);
      if m.groupId.Some? && n.groupId.Some? {
        ColonCut(m.groupId.value, m.sender, n.groupId.value, n.sender);
      }
    }
  }

  function KeyTail(m: Message): string {
    match m.groupId
    case Some(gid) => gid + ":" + m.sender
    case None => m.sender
  }

  lemma GroupShows(m: Message)
    requires PlainSource(m)
    ensures ColonFree(KeyTail(m)) <==> m.groupId.None?
  {
  }

  /** With colons they may not: any message of a group shares its key with a group-less message of another sender. */
  lemma KeyCollides(m: Message, n: Message)
    requires m.groupId.Some? && n.groupId.None?
    requires n.channel == m.channel && n.sender == m.groupId.value + ":" + m.sender
    ensures DebounceKey(m) == DebounceKey(n)
  {
  }

  predicate SameSource(m: Message, n: Message) {
    m.channel == n.channel && m.groupId == n.groupId && m.sender == n.sender
  }

  /** No other source has this message's key. */
  ghost predicate KeyIsOwn(m: Message) {
    forall n: Message :: DebounceKey(n) == DebounceKey(m) ==> SameSource(n, m)
  }

  function Colons(s: string): nat {
    if s == "" then 0 else Colons(s[1..]) + if s[0] == ':' then 1 else 0
  }

  lemma {:induction false} ColonsAppend(a: string, b: string)
    ensures Colons(a + b) == Colons(a) + Colons(b)
  {
    if a == "" {
      assert a + b == b;
    } else {
      assert (a + b)[1..] == a[1..] + b;
      ColonsAppend(a[1..], b);
    }
  }

  lemma {:induction false} NoColons(s: string)
    ensures Colons(s) == 0 <==> ColonFree(s)
  {
    if s != "" {
      NoColons(s[1..]);
      assert s == [s[0]] + s[1..];
    }
  }

  lemma OneColon()
    ensures Colons(":") == 1
  {
    assert Colons("") == 0;
  }

  lemma KeyColons(m: Message)
    ensures Colons(DebounceKey(m))
         == Colons(m.channel) + Colons(m.sender) + match m.groupId case Some(g) => 2 + Colons(g) case None => 1
  {
    hide Colons;
    var sender := ":" + m.sender;
    ColonsAppend(":", m.sender);
    OneColon();
    match m.groupId {
      case None =>
        ColonsAppend(m.channel, sender);
        assert DebounceKey(m) == m.channel + sender;
      case Some(g) =>
        ColonsAppend(g, sender);
        ColonsAppend(":", g + sender);
        ColonsAppend(m.channel, ":" + (g + sender));
        assert DebounceKey(m) == m.channel + (":" + (g + sender));
    }
  }

  /** The text around a colon. */
  lemma AtColon(s: string) returns (a: string, b: string)
    requires !ColonFree(s)
    ensures s == a + ":" + b
  {
    var i :| 0 <= i < |s| && s[i] == ':';
    a, b := s[..i], s[i + 1..];
  }

  /** The messages whose key nobody else has are exactly the group-less ones without colons in channel and sender:
      a group's key is also the key of a group-less message, and a colon in a name can be read as the separator. */
  lemma KeyIsOwnExactly(m: Message)
    ensures KeyIsOwn(m) <==> m.groupId.None? && ColonFree(m.channel) && ColonFree(m.sender)
  {
    if m.groupId.Some? {
      var n := m.(groupId := None, sender := m.groupId.value + ":" + m.sender);
      KeyCollides(m, n);
    } else if !ColonFree(m.channel) {
      var a, b := AtColon(m.channel);
      var n := m.(channel := a, sender := b + ":" + m.sender);
      assert DebounceKey(n) == a + ":" + b + ":" + m.sender == DebounceKey(m);
    } else if !ColonFree(m.sender) {
      var a, b := AtColon(m.sender);
      var n := m.(channel := m.channel + ":" + a, sender := b);
      assert DebounceKey(n) == m.channel + ":" + (a + ":" + b);
    } else {
      forall n: Message | DebounceKey(n) == DebounceKey(m) ensures SameSource(n, m) {
        KeyColons(m);
        KeyColons(n);
        NoColons(m.channel);
        NoColons(m.sender);
        NoColons(n.channel);
        NoColons(n.sender);
        ColonCut(m.channel, m.sender, n.channel, n.sender);
      }
    }
  }

  predicate OneLine(s: string) {
    '\n' !in s
  }

  function Line(s: string): string {
    if s == "" || s[0] == '\n' then "" else [s[0]] + Line(s[1..])
  }

  lemma {:induction false} LineOf(a: string, b: string)
    requires OneLine(a)
    ensures Line(a) == a && Line(a + "\n" + b) == a
  {
    var s := a + "\n" + b;
    if a == "" {
      assert s[0] == '\n';
    } else {
      assert s[1..] == a[1..] + "\n" + b && s[0] == a[0];
      LineOf(a[1..], b);
    }
  }

  lemma LineCut(a: string, b: string, c: string, d: string)
    requires OneLine(a) && OneLine(c) && a + "\n" + b == c + "\n" + d
    ensures a == c && b == d
  {
    LineOf(a, b);
    LineOf(c, d);
    assert (a + "\n" + b)[|a| + 1..] == b;
    assert (c + "\n" + d)[|c| + 1..] == d;
  }

  lemma LinesShow(f: seq<string>)
    requires f != [] && OneLine(f[0])
    ensures OneLine(Join(f)) <==> |f| == 1
  {
  }

  /** One-line fragments can be read back from the combined content: nothing is lost or blurred by joining. */
  lemma {:induction false} JoinInjective(f: seq<string>, g: seq<string>)
    requires f != [] && g != [] && Join(f) == Join(g)
    requires (forall x :: x in f ==> OneLine(x)) && forall x :: x in g ==> OneLine(x)
    ensures f == g
  {
    if |f| == 1 || |g| == 1 {
      LinesShow(f);
      LinesShow(g);
    } else {
      LineCut(f[0], Join(f[1..]), g[0], Join(g[1..]));
      JoinInjective(f[1..], g[1..]);
      assert f == [f[0]] + f[1..] && g == [g[0]] + g[1..];
    }
  }

  // ── what an emitted message says ──

  /** The fragments one after the other with line breaks between them. */
  ghost predicate IsJoined(fragments: seq<string>, text: string) {
    if fragments == [] then text == ""
    else if |fragments| == 1 then text == fragments[0]
    else exists front :: IsJoined(Init(fragments), front) && text == front + "\n" + Last(fragments)
  }

  lemma {:induction false} JoinPush(fragments: seq<string>, last: string)
    requires fragments != []
    ensures Join(fragments + [last]) == Join(fragments) + "\n" + last
    decreases |fragments|
  {
    var whole := fragments + [last];
    assert whole[1..] == fragments[1..] + [last];
    if |fragments| == 1 {
      assert fragments[1..] + [last] == [last];
    } else {
      JoinPush(fragments[1..], last);
      assert fragments[0] + "\n" + (Join(fragments[1..]) + "\n" + last)
          == fragments[0] + "\n" + Join(fragments[1..]) + "\n" + last;
    }
  }

  lemma {:induction false} JoinedExactly(fragments: seq<string>, text: string)
    ensures IsJoined(fragments, text) <==> text == Join(fragments)
    decreases |fragments|
  {
    if |fragments| > 1 {
      var front := Join(Init(fragments));
      JoinedExactly(Init(fragments), front);
      JoinPush(Init(fragments), Last(fragments));
      assert fragments == Init(fragments) + [Last(fragments)];
      forall other | IsJoined(Init(fragments), other) ensures other == front {
        JoinedExactly(Init(fragments), other);
      }
    }
  }

  /** An emitted message holds all fragments of its batch, in order, one to a line; it has a new identifier and time and is
      otherwise the batch's first message. */
  lemma EmittedMessage(batch: Batch, id: string, timestamp: int)
    ensures var out, first := Combine(batch, id, timestamp), batch.firstMsg;
            && IsJoined(batch.fragments, out.content) && out.id == id && out.timestamp == timestamp
            && out.sender == first.sender && out.channel == first.channel && out.groupId == first.groupId
            && out.replyTarget == first.replyTarget && out.threadTs == first.threadTs && out.metadata == first.metadata
            && out.chatType == first.chatType && out.botMentioned == first.botMentioned
  {
    JoinedExactly(batch.fragments, Join(batch.fragments));
  }

  /** Where each fragment stands in it. */
  lemma {:induction false} FragmentInside(fragments: seq<string>, text: string, k: nat) returns (i: nat)
    requires IsJoined(fragments, text) && k < |fragments|
    ensures OccursAt(text, fragments[k], i)
    ensures (k == 0 <==> i == 0) && (k > 0 ==> text[i - 1] == '\n')
    decreases |fragments|
  {
    if |fragments| == 1 {
      i := 0;
    } else {
      var front :| IsJoined(Init(fragments), front) && text == front + "\n" + Last(fragments);
      if k == |fragments| - 1 {
        i := |front| + 1;
        assert text[i..] == fragments[k];
      } else {
        i := FragmentInside(Init(fragments), front, k);
        assert text[i..i + |fragments[k]|] == front[i..i + |fragments[k]|];
      }
    }
  }

  /** A batch has expired when nothing was added to it for the window, and always when there is no window. */
  lemma ExpiredExactly(pending: Pending, now: int, window: int, key: string)
    ensures key in Expired(pending, now, window)
        <==> key in pending && (window <= 0 || pending[key].lastActivity + window <= now)
  {
  }

  /** The characters of a batch are the bytes of its fragments. */
  lemma {:induction false} TotalLenAppend(a: seq<string>, b: seq<string>)
    ensures TotalLen(a + b) == TotalLen(a) + TotalLen(b)
    ensures forall s :: TotalLen([s]) == Len(s)
  {
    forall s ensures TotalLen([s]) == Len(s) { assert Init([s]) == []; }
    if b == [] {
      assert a + b == a;
    } else {
      TotalLenAppend(a, Init(b));
      assert Init(a + b) == a + Init(b);
    }
  }

  lemma KeyTexts(msg: Message)
    ensures msg.groupId.None? ==> DebounceKey(msg) == msg.channel + ":" + msg.sender
    ensures msg.groupId.Some? ==>
              exists group :: msg.groupId == Some(group) && DebounceKey(msg) == msg.channel + ":" + group + ":" + msg.sender
  {
  }

  /** A batch begins with its message and grows by each further one; the clock of the newest is its last activity. */
  lemma BatchesMean(batch: Batch, msg: Message, now: int)
    ensures FirstBatch(msg, now).firstMsg == msg && FirstBatch(msg, now).fragments == [msg.content]
    ensures FirstBatch(msg, now).lastActivity == now && Grown(batch, msg, now).lastActivity == now
    ensures Grown(batch, msg, now).firstMsg == batch.firstMsg
    ensures Grown(batch, msg, now).fragments == batch.fragments + [msg.content]
  {
  }
}
