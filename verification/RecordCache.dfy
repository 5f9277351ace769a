/** Best-effort memoization over the object store (src/dr_store/record_cache/cache.py). */
module RecordCaches {
  import opened Wrappers
  import opened ObjectReferences
  import opened StorageContract
  import opened ObjectStore

  /** A cache read turns every per-key store failure into a miss. */
  function CacheRead<R>(enc: Encoding<R>, rows: map<string, BoundObjectRow>, key: string, schema: string): Option<R> {
    match ReadKey(enc, rows, key, schema)
    case Success(hit) => hit
    case Failure(_) => None
  }

  /** The misses that count as corruption: a malformed stored reference, or text that does not verify. A
      binding of another schema or to a missing object is an ordinary miss. */
  predicate Corrupt<R>(enc: Encoding<R>, rows: map<string, BoundObjectRow>, key: string, schema: string) {
    match ReadKey(enc, rows, key, schema)
    case Success(_) => false
    case Failure(error) => !error.SchemaMismatch? && !error.ObjectNotFound?
  }

  /** The distinct keys whose stored data is corrupt. */
  function CorruptKeys<R>(enc: Encoding<R>, rows: map<string, BoundObjectRow>, keys: seq<string>, schema: string):
      set<string> {
    set k | k in keys && Corrupt(enc, rows, k, schema)
  }

  class RecordCache<R> {
    const enc: Encoding<R>
    var corruptionCount: nat

    constructor (enc: Encoding<R>)
      ensures this.enc == enc && corruptionCount == 0
    {
      this.enc := enc;
      corruptionCount := 0;
    }

    /** A hit or a miss for one key; corrupt stored data is a miss that is counted. */
    method ReadOne(rows: map<string, BoundObjectRow>, key: string, schema: string) returns (hit: Option<R>)
      modifies this
      ensures hit == CacheRead(enc, rows, key, schema)
      ensures corruptionCount == old(corruptionCount) + if Corrupt(enc, rows, key, schema) then 1 else 0
    {
      if key !in rows {
        return None;
      }
      var reference := rows[key].binding;
      if !reference.Valid() {
        corruptionCount := corruptionCount + 1;
        return None;
      }
      if reference.schema != schema {
        return None;
      }
      if rows[key].canonical.None? {
        return None;
      }
      match Verify(enc, reference, reference.schema, rows[key].canonical.value) {
        case Failure(_) =>
          corruptionCount := corruptionCount + 1;
          return None;
        case Success(record) => return Some(record);
      }
    }

    /** One hit or miss for every key; only an invalid requested schema or key raises. Each distinct key whose
        stored data is corrupt is counted once. */
    method GetMany(t: Tables, keys: seq<string>, schema: string)
        returns (answer: Result<map<string, Option<R>>, StoreError>)
      modifies this
      ensures answer.Success? <==> IsReferenceSchema(schema) && AllBindingKeys(keys)
      ensures answer.Failure? ==> answer.error == InvalidArgument && corruptionCount == old(corruptionCount)
      ensures answer.Success? ==> forall k :: k in answer.value <==> k in keys
      ensures answer.Success? ==> forall k | k in keys ::
                answer.value[k] == CacheRead(enc, BoundRows(t.objects, t.bindings, keys), k, schema)
      ensures answer.Success? ==>
                corruptionCount
                == old(corruptionCount) + |CorruptKeys(enc, BoundRows(t.objects, t.bindings, keys), keys, schema)|
    {
      if !IsReferenceSchema(schema) {
        return Failure(InvalidArgument);
      }
      var distinct := Distinct(keys);
      if exists k | k in distinct :: !IsBindingKey(k) {
        return Failure(InvalidArgument);
      }
      var rows := BoundRows(t.objects, t.bindings, distinct);
      assert rows == BoundRows(t.objects, t.bindings, keys);
      var results: map<string, Option<R>> := map[];
      for i := 0 to |distinct|
        invariant forall k :: k in results <==> k in distinct[..i]
        invariant forall k | k in results :: results[k] == CacheRead(enc, rows, k, schema)
        invariant corruptionCount == old(corruptionCount) + |CorruptKeys(enc, rows, distinct[..i], schema)|
      {
        CountOneMore(enc, rows, distinct, i, schema);
        var hit := ReadOne(rows, distinct[i], schema);
        results := results[distinct[i] := hit];
      }
      assert distinct[..|distinct|] == distinct;
      assert CorruptKeys(enc, rows, distinct, schema) == CorruptKeys(enc, rows, keys, schema);
      return Success(results);
    }
  }

  lemma CountOneMore<R>(enc: Encoding<R>, rows: map<string, BoundObjectRow>, keys: seq<string>, i: nat, schema: string)
    requires i < |keys| && NoDuplicates(keys)
    ensures keys[..i + 1] == keys[..i] + [keys[i]]
    ensures |CorruptKeys(enc, rows, keys[..i + 1], schema)|
            == |CorruptKeys(enc, rows, keys[..i], schema)| + if Corrupt(enc, rows, keys[i], schema) then 1 else 0
  {
    var before, after := CorruptKeys(enc, rows, keys[..i], schema), CorruptKeys(enc, rows, keys[..i + 1], schema);
    assert keys[..i + 1] == keys[..i] + [keys[i]];
    assert keys[i] !in keys[..i];
    assert after == before + if Corrupt(enc, rows, keys[i], schema) then {keys[i]} else {};
  }

  /** What a key reads does not depend on the other keys asked for. */
  lemma {:induction false} ReadIsPerKey<R>(enc: Encoding<R>, t: Tables, keys: seq<string>, key: string, schema: string)
    requires key in keys
    ensures ReadKey(enc, BoundRows(t.objects, t.bindings, keys), key, schema)
            == ReadKey(enc, BoundRows(t.objects, t.bindings, [key]), key, schema)
  {
    assert key in [key];
    var many, one := BoundRows(t.objects, t.bindings, keys), BoundRows(t.objects, t.bindings, [key]);
    assert key in many <==> key in one;
  }

  /** CACHE AGAINST STORE: the cache gives a hit for a key exactly where asking the store for that one key
      would, with the same record, whatever else was asked for in the same batch. */
  lemma {:induction false} CacheHitsExactlyWhereStoreHits<R>(enc: Encoding<R>, t: Tables, keys: seq<string>,
                                                           key: string, schema: string, record: R,
                                                           answer: map<string, Option<R>>)
    requires key in keys
    ensures CacheRead(enc, BoundRows(t.objects, t.bindings, keys), key, schema) == Some(record) <==>
              AllRead(enc, BoundRows(t.objects, t.bindings, [key]), [key], schema, map[key := Some(record)])
    ensures AllRead(enc, BoundRows(t.objects, t.bindings, keys), keys, schema, answer) ==>
              key in answer && answer[key] == CacheRead(enc, BoundRows(t.objects, t.bindings, keys), key, schema)
  {
    ReadIsPerKey(enc, t, keys, key, schema);
  }
}
