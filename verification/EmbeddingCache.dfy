/** The persistent embedding cache: what it stores, what it evicts, and that callers never notice it. */
module EmbeddingCache {
  import opened Sequences
  import opened Wrappers

  // ── stored form ──

  type Byte = n: int | 0 <= n < 256

  /** A 32-bit float as its bit pattern. */
  type F32 = n: int | 0 <= n < 0x1_0000_0000

  type Embedding = seq<F32>

  function LeBytes(v: F32): (r: seq<Byte>)
    ensures |r| == 4
  {
    [v % 256, v / 256 % 256, v / 65536 % 256, v / 16777216]
  }

  function FromLe(b: seq<Byte>): F32
    requires |b| == 4
  {
    var b0: int, b1: int, b2: int, b3: int := b[0], b[1], b[2], b[3];
    b0 + 256 * b1 + 65536 * b2 + 16777216 * b3
  }

  function ToBytes(e: Embedding): (r: seq<Byte>)
    ensures |r| == 4 * |e|
  {
    if e == [] then [] else LeBytes(e[0]) + ToBytes(e[1..])
  }

  /** Whole groups of four bytes; a shorter rest is dropped. */
  function FromBytes(b: seq<Byte>): (r: Embedding)
    ensures |r| == |b| / 4
  {
    if |b| < 4 then [] else [FromLe(b[..4])] + FromBytes(b[4..])
  }

  method EmbeddingToBytes(e: Embedding) returns (bytes: seq<Byte>)
    ensures bytes == ToBytes(e)
  {
    hide LeBytes;
    bytes := [];
    var i := 0;
    while i < |e|
      invariant 0 <= i <= |e| && bytes + ToBytes(e[i..]) == ToBytes(e)
    {
      assert e[i..][1..] == e[i + 1..];
      assert bytes + (LeBytes(e[i]) + ToBytes(e[i + 1..])) == bytes + LeBytes(e[i]) + ToBytes(e[i + 1..]);
      bytes := bytes + LeBytes(e[i]);
      i := i + 1;
    }
    assert bytes + [] == bytes;
  }

  lemma LeRoundTrip(v: F32)
    ensures FromLe(LeBytes(v)) == v
  {
    var w: int := v;
    assert w == w % 256 + 256 * (w / 256);
    assert w / 256 == w / 256 % 256 + 256 * (w / 65536);
    assert w / 65536 == w / 65536 % 256 + 256 * (w / 16777216);
  }

  lemma LeBytesUnique(b: seq<Byte>)
    requires |b| == 4
    ensures LeBytes(FromLe(b)) == b
  {
    var v: int, b1: int, b2: int, b3: int := FromLe(b), b[1], b[2], b[3];
    assert v / 256 == b1 + 256 * b2 + 65536 * b3;
    assert v / 65536 == b2 + 256 * b3;
    assert v / 16777216 == b3;
  }

  /** What is stored reads back as what was computed, bit for bit. */
  lemma {:induction false} StorageRoundTrip(e: Embedding)
    ensures FromBytes(ToBytes(e)) == e
  {
    hide LeBytes, FromLe;
    if e != [] {
      LeRoundTrip(e[0]);
      StorageRoundTrip(e[1..]);
      var b := ToBytes(e);
      assert b[..4] == LeBytes(e[0]) && b[4..] == ToBytes(e[1..]);
      assert e == [e[0]] + e[1..];
    }
  }

  /** Stored bytes survive reading and writing exactly when they are whole floats. */
  lemma {:induction false} BytesRoundTrip(b: seq<Byte>)
    ensures ToBytes(FromBytes(b)) == b <==> |b| % 4 == 0
  {
    hide LeBytes, FromLe;
    if |b| >= 4 {
      LeBytesUnique(b[..4]);
      BytesRoundTrip(b[4..]);
      var e := FromBytes(b);
      assert e[1..] == FromBytes(b[4..]);
      assert b == b[..4] + b[4..];
      assert ToBytes(e) == b[..4] + ToBytes(e[1..]);
      if ToBytes(e) == b {
        assert ToBytes(e)[4..] == b[4..];
      }
    }
  }

  // ── the provider behind the cache ──

  type Provider = string -> Result<Embedding, string>

  /** The error of the first text that cannot be embedded. */
  function FirstError(inner: Provider, texts: seq<string>): (r: Option<string>)
    ensures r.None? <==> forall i :: 0 <= i < |texts| ==> inner(texts[i]).Ok?
  {
    if texts == [] then None
    else if FirstError(inner, Init(texts)).Some? then FirstError(inner, Init(texts))
    else if inner(Last(texts)).Err? then Some(inner(Last(texts)).error)
    else None
  }

  /** Embedding a batch without a cache: every text in order, or the first error. */
  function BatchOf(inner: Provider, texts: seq<string>): Result<seq<Embedding>, string> {
    if FirstError(inner, texts).Some? then Err(FirstError(inner, texts).value)
    else Ok(seq(|texts|, i requires 0 <= i < |texts| => inner(texts[i]).value))
  }

  // ── the table ──

  datatype Row = Row(embedding: seq<Byte>, createdAt: int, accessedAt: int)

  type Table = map<string, Row>

  /** `INSERT … ON CONFLICT DO UPDATE`: a row already there keeps its creation time. */
  function Upsert(table: Table, key: string, embedding: seq<Byte>, now: int): Table {
    table[key := Row(embedding, if key in table then table[key].createdAt else now, now)]
  }

  /** `kept` is `table` without its `overflow` least recently accessed rows. */
  ghost predicate WithoutOldest(table: Table, overflow: nat, kept: Table) {
    && kept.Keys <= table.Keys && (forall k :: k in kept ==> kept[k] == table[k])
    && |kept| == |table| - overflow
    && forall gone, k :: gone in table && gone !in kept && k in kept ==> table[gone].accessedAt <= table[k].accessedAt
  }

  method Oldest(table: Table) returns (oldest: string)
    requires table != map[]
    ensures oldest in table && forall k :: k in table ==> table[oldest].accessedAt <= table[k].accessedAt
  {
    oldest :| oldest in table;
    var todo := table.Keys;
    while todo != {}
      invariant todo <= table.Keys && oldest in table
      invariant forall k :: k in table.Keys - todo ==> table[oldest].accessedAt <= table[k].accessedAt
      decreases |todo|
    {
      var k :| k in todo;
      if table[k].accessedAt < table[oldest].accessedAt {
        oldest := k;
      }
      todo := todo - {k};
    }
  }

  /** `DELETE … ORDER BY accessed_at ASC LIMIT overflow`. */
  method DeleteOldest(table: Table, overflow: nat) returns (kept: Table)
    requires overflow <= |table|
    ensures WithoutOldest(table, overflow, kept)
  {
    kept := table;
    var n := 0;
    while n < overflow
      invariant n <= overflow && WithoutOldest(table, n, kept)
    {
      var key := Oldest(kept);
      assert (kept - {key}).Keys == kept.Keys - {key};
      kept, n := kept - {key}, n + 1;
    }
  }

  // ── the cache ──

  /** Texts with one hash have one embedding. */
  ghost predicate CollisionFree(hash: string -> string, texts: set<string>) {
    forall a, b :: a in texts && b in texts && hash(a) == hash(b) ==> a == b
  }

  /** Every row of a known text holds that text's embedding. */
  ghost predicate Faithful(table: Table, inner: Provider, hash: string -> string, texts: set<string>) {
    forall t :: t in texts && hash(t) in table ==>
      inner(t).Ok? && table[hash(t)].embedding == ToBytes(inner(t).value)
  }

  /** Storing the right embedding and dropping rows both keep the table faithful. */
  lemma UpsertFaithful(table: Table, kept: Table, inner: Provider, hash: string -> string, texts: set<string>,
                       text: string, now: int)
    requires CollisionFree(hash, texts) && Faithful(table, inner, hash, texts) && text in texts && inner(text).Ok?
    requires var full := Upsert(table, hash(text), ToBytes(inner(text).value), now);
             kept.Keys <= full.Keys && forall k :: k in kept ==> kept[k] == full[k]
    ensures Faithful(kept, inner, hash, texts)
  {
  }

  class CachedEmbeddingProvider {
    const inner: Provider
    const hash: string -> string
    const maxEntries: nat
    var table: Table
    /** All texts the cache is ever asked about. */
    ghost const texts: set<string>

    ghost predicate Valid()
      reads this
    {
      CollisionFree(hash, texts) && Faithful(table, inner, hash, texts)
    }

    /** Opens the cache over a table that may hold rows from earlier runs. */
    constructor (inner: Provider, hash: string -> string, table: Table, maxEntries: nat, ghost texts: set<string>)
      requires CollisionFree(hash, texts) && Faithful(table, inner, hash, texts)
      ensures Valid() && this.inner == inner && this.hash == hash && this.maxEntries == maxEntries
      ensures this.table == table && this.texts == texts
    {
      this.inner, this.hash, this.maxEntries, this.table, this.texts := inner, hash, maxEntries, table, texts;
    }

    method CacheGet(key: string, now: int) returns (r: Option<Embedding>)
      requires Valid()
      modifies this
      ensures Valid() && |table| == |old(table)|
      ensures key !in old(table) ==> r == None && table == old(table)
      ensures key in old(table) ==>
                r == Some(FromBytes(old(table)[key].embedding))
                && table == old(table)[key := old(table)[key].(accessedAt := now)]
      ensures r.Some? ==> forall t :: t in texts && hash(t) == key ==> inner(t) == Ok(r.value)
    {
      hide ToBytes, FromBytes, CollisionFree;
      if key !in table {
        return None;
      }
      var row := table[key];
      forall t | t in texts && hash(t) == key ensures inner(t) == Ok(FromBytes(row.embedding)) {
        StorageRoundTrip(inner(t).value);
      }
      table := table[key := row.(accessedAt := now)];
      assert table.Keys == old(table).Keys && |table.Keys| == |table|;
      return Some(FromBytes(row.embedding));
    }

    method CachePut(ghost text: string, key: string, embedding: Embedding, now: int)
      requires Valid() && text in texts && key == hash(text) && inner(text) == Ok(embedding)
      modifies this
      ensures Valid() && |table| <= maxEntries
      ensures var full := Upsert(old(table), key, ToBytes(embedding), now);
              WithoutOldest(full, if |full| > maxEntries then |full| - maxEntries else 0, table)
    {
      hide ToBytes, CollisionFree, Faithful;
      var bytes := EmbeddingToBytes(embedding);
      ghost var before := table;
      table := Upsert(table, key, bytes, now);
      if |table| > maxEntries {
        table := DeleteOldest(table, |table| - maxEntries);
      }
      UpsertFaithful(before, table, inner, hash, texts, text, now);
    }

    /** One text: the answer is the provider's, whatever the table held. */
    method Embed(text: string, readAt: int, storeAt: int) returns (r: Result<Embedding, string>)
      requires Valid() && text in texts
      modifies this
      ensures Valid() && r == inner(text)
      ensures |table| <= if |old(table)| > maxEntries then |old(table)| else maxEntries
    {
      hide ToBytes, FromBytes;
      var key := hash(text);
      var cached := CacheGet(key, readAt);
      if cached.Some? {
        return Ok(cached.value);
      }
      var computed := inner(text);
      if computed.Err? {
        return computed;
      }
      CachePut(text, key, computed.value, storeAt);
      return computed;
    }

    /** The first pass of a batch: hits are taken from the table, misses are listed. */
    method LookUpAll(batch: seq<string>, clock: nat -> int)
      returns (results: seq<Option<Embedding>>, missIndices: seq<nat>, missTexts: seq<string>)
      requires Valid() && forall i :: 0 <= i < |batch| ==> batch[i] in texts
      modifies this
      ensures Valid() && |table| == |old(table)|
      ensures Right(inner, batch, results) && Listed(batch, missIndices, missTexts) && Open(results, missIndices)
      ensures |results| == |batch| && FirstError(inner, batch) == FirstError(inner, missTexts)
    {
      hide FirstError, Valid, Right, Listed, Open;
      results, missIndices, missTexts := [], [], [];
      LookUpStart(inner, batch);
      assert batch[..0] == [];
      while |results| < |batch|
        invariant Valid() && |table| == |old(table)| && |results| <= |batch|
        invariant Right(inner, batch, results) && Listed(batch, missIndices, missTexts) && Open(results, missIndices)
        invariant FirstError(inner, batch[..|results|]) == FirstError(inner, missTexts)
      {
        var i := |results|;
        var cached := CacheGet(hash(batch[i]), clock(i));
        assert batch[..i + 1] == batch[..i] + [batch[i]];
        FirstErrorPush(inner, batch[..i], batch[i]);
        LookUpStep(inner, batch, results, missIndices, missTexts, cached);
        if cached.Some? {
          results := results + [cached];
        } else {
          FirstErrorPush(inner, missTexts, batch[i]);
          results := results + [None];
          missIndices := missIndices + [i];
          missTexts := missTexts + [batch[i]];
        }
      }
      assert batch[..|results|] == batch;
    }

    /** The second pass: each computed embedding is stored and fills its place. */
    method StoreAll(batch: seq<string>, missIndices: seq<nat>, computed: seq<Embedding>,
                    found: seq<Option<Embedding>>, clock: nat -> int)
      returns (results: seq<Option<Embedding>>)
      requires Valid() && forall i :: 0 <= i < |batch| ==> batch[i] in texts
      requires |found| == |batch| && Right(inner, batch, found) && Open(found, missIndices)
      requires |computed| == |missIndices|
      requires forall j :: 0 <= j < |missIndices| ==>
                 missIndices[j] < |batch| && inner(batch[missIndices[j]]) == Ok(computed[j])
      modifies this
      ensures Valid() && (missIndices != [] ==> |table| <= maxEntries)
      ensures |results| == |batch| && Right(inner, batch, results) && Open(results, [])
    {
      hide WithoutOldest, CollisionFree, Faithful, ToBytes, Upsert;
      results := found;
      var j := 0;
      while j < |missIndices|
        invariant 0 <= j <= |missIndices| && Valid() && (j > 0 ==> |table| <= maxEntries)
        invariant |results| == |batch| && Right(inner, batch, results) && Open(results, missIndices[j..])
      {
        var idx := missIndices[j];
        CachePut(batch[idx], hash(batch[idx]), computed[j], clock(|batch| + j));
        assert missIndices[j..] == [idx] + missIndices[j + 1..];
        results := results[idx := Some(computed[j])];
        j := j + 1;
      }
    }

    /** A batch: the answer is the provider's for every text, whatever was cached, repeated or evicted meanwhile. */
    method EmbedBatch(batch: seq<string>, clock: nat -> int) returns (r: Result<seq<Embedding>, string>)
      requires Valid() && forall i :: 0 <= i < |batch| ==> batch[i] in texts
      modifies this
      ensures Valid() && r == BatchOf(inner, batch)
      ensures |table| <= if |old(table)| > maxEntries then |old(table)| else maxEntries
    {
      hide Valid, FirstError;
      var results, missIndices, missTexts := LookUpAll(batch, clock);
      if missTexts != [] {
        var computed := BatchOf(inner, missTexts);
        if computed.Err? {
          return Err(computed.error);
        }
        results := StoreAll(batch, missIndices, computed.value, results, clock);
      }
      var answers := UnwrapAll(inner, batch, results);
      assert BatchOf(inner, batch).Ok? && BatchOf(inner, batch).value == answers;
      return Ok(answers);
    }
  }

  lemma FirstErrorPush(inner: Provider, texts: seq<string>, text: string)
    ensures FirstError(inner, texts + [text])
         == if FirstError(inner, texts).Some? then FirstError(inner, texts)
            else if inner(text).Err? then Some(inner(text).error) else None
  {
  }

  /** Every answer so far is the provider's. */
  ghost predicate Right(inner: Provider, batch: seq<string>, results: seq<Option<Embedding>>) {
    |results| <= |batch|
    && forall i :: 0 <= i < |results| && results[i].Some? ==> inner(batch[i]) == Ok(results[i].value)
  }

  /** The listed misses are texts of the batch. */
  ghost predicate Listed(batch: seq<string>, indices: seq<nat>, missTexts: seq<string>) {
    |indices| == |missTexts|
    && forall j :: 0 <= j < |indices| ==> indices[j] < |batch| && missTexts[j] == batch[indices[j]]
  }

  /** Only listed places are still open. */
  ghost predicate Open(results: seq<Option<Embedding>>, indices: seq<nat>) {
    forall i :: 0 <= i < |results| && results[i].None? ==> i in indices
  }

  lemma LookUpStart(inner: Provider, batch: seq<string>)
    ensures Right(inner, batch, []) && Listed(batch, [], []) && Open([], [])
    ensures FirstError(inner, []) == None
  {
  }

  lemma LookUpStep(inner: Provider, batch: seq<string>, results: seq<Option<Embedding>>, indices: seq<nat>,
                   missTexts: seq<string>, cached: Option<Embedding>)
    requires Right(inner, batch, results) && Listed(batch, indices, missTexts) && Open(results, indices)
    requires |results| < |batch| && (cached.Some? ==> inner(batch[|results|]) == Ok(cached.value))
    ensures var i := |results|;
            && Right(inner, batch, results + [cached])
            && (if cached.Some? then Open(results + [cached], indices)
                else
                  Listed(batch, indices + [i], missTexts + [batch[i]]) && Open(results + [None], indices + [i]))
  {
  }

  /** `unwrap_or_default` over the results: with nothing open, the default is never used. */
  method UnwrapAll(ghost inner: Provider, ghost batch: seq<string>, results: seq<Option<Embedding>>)
    returns (answers: seq<Embedding>)
    requires |results| == |batch| && Right(inner, batch, results) && Open(results, [])
    ensures |answers| == |batch| && forall i :: 0 <= i < |batch| ==> inner(batch[i]) == Ok(answers[i])
  {
    answers := [];
    while |answers| < |results|
      invariant |answers| <= |results|
      invariant forall i :: 0 <= i < |answers| ==> inner(batch[i]) == Ok(answers[i])
    {
      answers := answers + [results[|answers|].GetOr([])];
    }
  }

  // ── what a stored row is ──

  /** What four bytes, least significant first, stand for. */
  function Worth(b: seq<Byte>): int
    requires |b| == 4
  {
    var b0: int, b1: int, b2: int, b3: int := b[0], b[1], b[2], b[3];
    b0 + 0x100 * b1 + 0x1_0000 * b2 + 0x100_0000 * b3
  }

  /** The stored form of an embedding holds each float in its own four bytes, least significant first. */
  lemma LittleEndian(e: Embedding, i: nat)
    requires i < |e|
    ensures Worth(ToBytes(e)[4 * i..4 * i + 4]) == e[i]
  {
    hide LeBytes, ToBytes;
    GroupAt(e, i);
    LeRoundTrip(e[i]);
  }

  lemma {:induction false} GroupAt(e: Embedding, i: nat)
    requires i < |e|
    ensures ToBytes(e)[4 * i..4 * i + 4] == LeBytes(e[i])
  {
    hide LeBytes;
    if i > 0 {
      GroupAt(e[1..], i - 1);
      var b, rest := ToBytes(e), ToBytes(e[1..]);
      assert b[4..] == rest;
      assert b[4 * i..4 * i + 4] == rest[4 * (i - 1)..4 * (i - 1) + 4];
    }
  }

  /** Storing sets one row: its bytes and its time of access are the new ones, it was created when it first came, and no
      other row changes. */
  lemma UpsertExactly(table: Table, key: string, embedding: seq<Byte>, now: int)
    ensures var full := Upsert(table, key, embedding, now);
            && full.Keys == table.Keys + {key}
            && full[key].embedding == embedding && full[key].accessedAt == now
            && full[key].createdAt == (if key in table then table[key].createdAt else now)
            && forall k :: k in table && k != key ==> full[k] == table[k]
  {
  }

  /** The row just put survives the eviction, if anything may stay and the clock is past every other row. */
  lemma JustPutSurvives(table: Table, key: string, embedding: seq<Byte>, now: int, maxEntries: nat, kept: Table)
    requires maxEntries > 0 && forall k :: k in table && k != key ==> table[k].accessedAt < now
    requires var full := Upsert(table, key, embedding, now);
             WithoutOldest(full, if |full| > maxEntries then |full| - maxEntries else 0, kept)
    ensures key in kept && kept[key].embedding == embedding && kept[key].accessedAt == now
  {
    var full := Upsert(table, key, embedding, now);
    UpsertExactly(table, key, embedding, now);
    assert key in full && |full| > 0;
    assert kept != map[];
    var k :| k in kept;
    assert k == key || full[k].accessedAt < full[key].accessedAt;
  }
}
