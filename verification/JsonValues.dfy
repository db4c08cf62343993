/** JSON values and the two ways the stores merge a patch into a document. */
module JsonValues {

  datatype Json =
    | Null
    | Bool(b: bool)
    | Num(n: int)
    | Str(s: string)
    | Arr(items: seq<Json>)
    | Obj(fields: map<string, Json>)

  type Fields = map<string, Json>

  /** The value under `key` before a merge: absent keys read as `Null`. */
  function Existing(base: Fields, key: string): Json {
    if key in base then base[key] else Null
  }

  /** The document `JsonMerge` computes: objects merge key by key, anything else is replaced. */
  function Merged(base: Json, patch: Json): (r: Json)
    decreases patch
  {
    if base.Obj? && patch.Obj? then
      Obj(map k | k in base.fields.Keys + patch.fields.Keys ::
            if k in patch.fields then Merged(Existing(base.fields, k), patch.fields[k]) else base.fields[k])
    else patch
  }

  /** `base` after the keys in `done` have been merged in and the others not yet. */
  ghost function MergedPart(base: Fields, patch: Fields, done: set<string>): Fields
    requires done <= patch.Keys
  {
    map k | k in base.Keys + done :: if k in done then Merged(Existing(base, k), patch[k]) else base[k]
  }

  lemma MergedPartStep(base: Fields, patch: Fields, done: set<string>, key: string)
    requires done <= patch.Keys && key in patch.Keys - done
    ensures Existing(MergedPart(base, patch, done), key) == Existing(base, key)
    ensures MergedPart(base, patch, done + {key})
         == MergedPart(base, patch, done)[key := Merged(Existing(base, key), patch[key])]
  {
  }

  lemma MergedPartNone(base: Fields, patch: Fields)
    ensures MergedPart(base, patch, {}) == base
  {
  }

  lemma MergedPartAll(base: Fields, patch: Fields)
    ensures Obj(MergedPart(base, patch, patch.Keys)) == Merged(Obj(base), Obj(patch))
  {
  }

  method JsonMerge(base: Json, patch: Json) returns (r: Json)
    ensures r == Merged(base, patch)
    decreases patch
  {
    if base.Obj? && patch.Obj? {
      var baseMap := base.fields;
      var todo := patch.fields.Keys;
      ghost var done: set<string> := {};
      MergedPartNone(base.fields, patch.fields);
      while todo != {}
        invariant done <= patch.fields.Keys && todo == patch.fields.Keys - done
        invariant baseMap == MergedPart(base.fields, patch.fields, done)
        decreases todo
      {
        var key :| key in todo;
        MergedPartStep(base.fields, patch.fields, done, key);
        var merged := JsonMerge(Existing(baseMap, key), patch.fields[key]);
        baseMap := baseMap[key := merged];
        todo, done := todo - {key}, done + {key};
      }
      assert done == patch.fields.Keys;
      MergedPartAll(base.fields, patch.fields);
      r := Obj(baseMap);
    } else {
      r := patch;
    }
  }

  lemma {:induction false} MergeSelf(p: Json)
    ensures Merged(p, p) == p
    decreases p
  {
    if p.Obj? {
      forall k | k in p.fields ensures Merged(p.fields[k], p.fields[k]) == p.fields[k] {
        MergeSelf(p.fields[k]);
      }
      assert Merged(p, p).fields == p.fields;
    }
  }

  lemma {:induction false} MergeIdempotent(base: Json, patch: Json)
    ensures Merged(Merged(base, patch), patch) == Merged(base, patch)
    decreases patch
  {
    if base.Obj? && patch.Obj? {
      var once := Merged(base, patch);
      forall k | k in patch.fields
        ensures Merged(Existing(once.fields, k), patch.fields[k]) == once.fields[k]
      {
        MergeIdempotent(Existing(base.fields, k), patch.fields[k]);
      }
      assert Merged(once, patch).fields == once.fields;
    } else {
      MergeSelf(patch);
    }
  }

  /** Patches over different keys can be applied in either order, whatever the base document is. */
  lemma MergesCommute(base: Json, p: Json, q: Json)
    requires p.Obj? && q.Obj? && p.fields.Keys !! q.fields.Keys
    ensures Merged(Merged(base, p), q) == Merged(Merged(base, q), p)
  {
    assert Merged(Merged(base, p), q).fields == Merged(Merged(base, q), p).fields;
  }

  /** An object patch keeps every key of an object base and leaves keys it does not name alone. */
  lemma MergeKeepsKeys(base: Json, patch: Json)
    requires base.Obj? && patch.Obj?
    ensures Merged(base, patch).Obj?
    ensures Merged(base, patch).fields.Keys == base.fields.Keys + patch.fields.Keys
    ensures forall k :: k in base.fields && k !in patch.fields ==> Merged(base, patch).fields[k] == base.fields[k]
  {
  }

  // ── the two store backends ──

  /** `patch` says everything about `base`: where both are objects it names every key of `base`, at every depth. */
  predicate Overwrites(patch: Json, base: Json)
    decreases patch
  {
    base.Obj? && patch.Obj? ==>
      forall k :: k in base.fields ==> k in patch.fields && Overwrites(patch.fields[k], base.fields[k])
  }

  /** A merge leaves exactly the patch precisely when the patch overwrites the base. */
  lemma {:induction false} MergeReplaces(base: Json, patch: Json)
    ensures Merged(base, patch) == patch <==> Overwrites(patch, base)
    decreases patch
  {
    if base.Obj? && patch.Obj? {
      var b, p := base.fields, patch.fields;
      forall k | k in p ensures Merged(Existing(b, k), p[k]) == p[k] <==> Overwrites(p[k], Existing(b, k)) {
        MergeReplaces(Existing(b, k), p[k]);
      }
      var merged := Merged(base, patch).fields;
      if Overwrites(patch, base) {
        assert merged.Keys == p.Keys;
        forall k | k in p ensures merged[k] == p[k] {}
        assert merged == p;
      } else {
        var k :| k in b && (k !in p || !Overwrites(p[k], b[k]));
        assert k in merged;
        assert k in p ==> merged[k] == Merged(b[k], p[k]);
      }
    }
  }

  /** PostgreSQL merges with `json_merge`; SQLite inserts the patch's top-level entries. */
  datatype Backend = Postgres | Sqlite

  function StoreMerge(backend: Backend, base: Fields, patch: Fields): (r: Fields)
    ensures r.Keys == base.Keys + patch.Keys
  {
    match backend
    case Postgres => Merged(Obj(base), Obj(patch)).fields
    case Sqlite => base + patch
  }

  lemma {:induction false} KeyLengthBound(keys: set<string>) returns (n: nat)
    ensures forall k :: k in keys ==> |k| <= n
  {
    n := 0;
    if keys != {} {
      var k :| k in keys;
      var m := KeyLengthBound(keys - {k});
      n := if |k| > m then |k| else m;
    }
  }

  /** The two backends store the same document from every base exactly for patches without object values. */
  lemma BackendsAgree(patch: Fields)
    ensures (forall base: Fields :: StoreMerge(Postgres, base, patch) == StoreMerge(Sqlite, base, patch))
       <==> (forall k :: k in patch ==> !patch[k].Obj?)
  {
    if (forall k :: k in patch ==> !patch[k].Obj?) {
      forall base: Fields ensures StoreMerge(Postgres, base, patch) == StoreMerge(Sqlite, base, patch) {
        forall k | k in patch ensures Merged(Existing(base, k), patch[k]) == patch[k] {}
        assert Merged(Obj(base), Obj(patch)).fields == base + patch;
      }
    } else {
      var k :| k in patch && patch[k].Obj?;
      var n := KeyLengthBound(patch[k].fields.Keys);
      var extra := seq(n + 1, _ => 'a');
      var base: Fields := map[k := Obj(map[extra := Null])];
      assert extra in Merged(base[k], patch[k]).fields;
      assert StoreMerge(Postgres, base, patch)[k] != StoreMerge(Sqlite, base, patch)[k];
    }
  }
}
