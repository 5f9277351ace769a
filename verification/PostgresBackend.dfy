/** The PostgreSQL backend's auto-acquired transactions (src/dr_store/storage_backends/postgresql.py): one
    deduplicated batch, sent as chunked set statements, and rolled back on a conflict. */
module PostgresStorage {
  import opened Wrappers
  import opened ObjectReferences
  import opened StorageContract
  import opened SqlTables

  /** The first write of every key, in order of first occurrence. */
  ghost predicate FirstWrites(entries: Entries, n: nat, keys: seq<string>, writes: Bindings)
    requires n <= |entries|
  {
    && NoDuplicates(keys)
    && (forall k :: k in keys <==> k in KeysOf(entries, n))
    && writes.Keys == KeysOf(entries, n)
    && (forall i | 0 <= i < n && FirstOfKey(entries, i) ::
          entries[i].key in writes && writes[entries[i].key] == entries[i].reference)
  }

  lemma RepeatedWriteStep(entries: Entries, n: nat, keys: seq<string>, writes: Bindings)
    requires n < |entries| && FirstWrites(entries, n, keys, writes) && entries[n].key in writes
    ensures FirstWrites(entries, n + 1, keys, writes)
  {
    InKeysOf(entries, n, entries[n].key);
    var i: nat :| i < n && entries[i].key == entries[n].key;
    assert !FirstOfKey(entries, n);
  }

  lemma NewWriteStep(entries: Entries, n: nat, keys: seq<string>, writes: Bindings)
    requires n < |entries| && FirstWrites(entries, n, keys, writes) && entries[n].key !in writes
    ensures FirstWrites(entries, n + 1, keys + [entries[n].key], writes[entries[n].key := entries[n].reference])
  {
    var key := entries[n].key;
    InKeysOf(entries, n, key);
    forall i | 0 <= i < n ensures entries[i].key != key {}
    assert key !in keys;
  }

  lemma FirstWritesStep(entries: Entries, n: nat, keys: seq<string>, writes: Bindings)
    requires n < |entries| && FirstWrites(entries, n, keys, writes)
    ensures FirstWrites(entries, n + 1, if entries[n].key in writes then keys else keys + [entries[n].key],
                        BindEntry(writes, entries[n]))
  {
    if entries[n].key in writes {
      RepeatedWriteStep(entries, n, keys, writes);
    } else {
      NewWriteStep(entries, n, keys, writes);
    }
  }

  /** The distinct references of a batch, in order of first occurrence. */
  ghost predicate FirstReferences(entries: Entries, n: nat, references: seq<ObjectReference>)
    requires n <= |entries|
  {
    && NoDuplicates(references)
    && (forall r :: r in references <==> r in ReferencesOf(entries, n))
    && (forall k | 0 <= k < |references| :: OccursInOrder(entries, n, references, k))
  }

  /** Some entry introduces reference k after all references before it have been introduced. */
  ghost predicate OccursInOrder(entries: Entries, n: nat, references: seq<ObjectReference>, k: nat)
    requires n <= |entries| && k < |references|
  {
    exists i: nat :: i < n && entries[i].reference == references[k]
                     && forall j | 0 <= j < i :: entries[j].reference in references[..k]
  }

  lemma FirstReferencesStep(entries: Entries, n: nat, references: seq<ObjectReference>)
    requires n < |entries| && FirstReferences(entries, n, references)
    ensures FirstReferences(entries, n + 1,
                            if entries[n].reference in references then references
                            else references + [entries[n].reference])
  {
    var reference := entries[n].reference;
    var m, next := n + 1, if reference in references then references else references + [reference];
    forall k | 0 <= k < |next| ensures OccursInOrder(entries, m, next, k) {
      if k < |references| {
        assert OccursInOrder(entries, n, references, k);
        assert next[..k] == references[..k];
      } else {
        assert next[..k] == references;
        forall j | 0 <= j < n ensures entries[j].reference in references {
          InReferencesOf(entries, n, entries[j].reference);
        }
        assert entries[n].reference == next[k];
      }
    }
  }

  /** After the insert, the stored bindings and the returned keys are the outcomes of the batch. */
  lemma {:induction false} InsertedBindingsAgree(before: Bindings, entries: Entries, keys: seq<string>,
      writes: Bindings)
    requires FirstWrites(entries, |entries|, keys, writes)
    ensures var after := InsertMissing(before, writes, keys);
            BindingsAgree(before, entries, |entries|, after,
                          map k | k in writes.Keys && k in after ::
                            BindOutcome(k in InsertedKeys(before, keys), after[k]))
  {}

  /** With one text per reference, inserting the missing objects stores every entry unless a stored text differs. */
  lemma {:induction false} InsertedObjectsAgree(before: Objects, entries: Entries, references: seq<ObjectReference>,
      proposed: Objects)
    requires Proposed(map[], entries, |entries|, proposed) && FirstReferences(entries, |entries|, references)
    requires var after := InsertMissing(before, proposed, references);
             forall r | r in references :: r in after && after[r] == proposed[r]
    ensures !Disagrees(before, entries)
    ensures ObjectsAgree(before, entries, |entries|, InsertMissing(before, proposed, references))
  {
    ProposedAgrees(map[], entries, proposed);
    forall i | 0 <= i < |entries| ensures entries[i].reference in references {
      InReferencesOf(entries, |entries|, entries[i].reference);
    }
  }

  /** The first reference whose stored text differs belongs to the first clashing entry. */
  lemma StoredClashIsFirst(before: Objects, entries: Entries, references: seq<ObjectReference>, proposed: Objects,
      k: nat)
    requires Proposed(map[], entries, |entries|, proposed) && FirstReferences(entries, |entries|, references)
    requires k < |references| && references[k] in before && before[references[k]] != proposed[references[k]]
    requires forall j | 0 <= j < k :: references[j] in before ==> before[references[j]] == proposed[references[j]]
    ensures Disagrees(before, entries) && !Disagrees(map[], entries)
    ensures exists i: nat :: FirstClash(before, entries, i) && references[k] == entries[i].reference
  {
    ProposedAgrees(map[], entries, proposed);
    assert OccursInOrder(entries, |entries|, references, k);
    var i: nat :| i < |entries| && entries[i].reference == references[k]
                  && forall j | 0 <= j < i :: entries[j].reference in references[..k];
    forall j | 0 <= j < i ensures !ClashesAt(before, entries, j) {
      assert entries[j].reference in references[..k];
      assert !ClashesAt(map[], entries, j);
    }
    assert ClashesAt(before, entries, i);
    FirstClashDisagrees(before, entries, i);
  }

  class PostgresBackend {
    const batchChunkSize: nat
    var objects: Objects
    var bindings: Bindings

    constructor (batchChunkSize: nat)
      requires batchChunkSize > 0
      ensures this.batchChunkSize == batchChunkSize && objects == map[] && bindings == map[]
    {
      this.batchChunkSize := batchChunkSize;
      objects, bindings := map[], map[];
    }

    method PutObject(reference: ObjectReference, canonical: string) returns (outcome: PutOutcome)
      modifies this`objects
      ensures PutAgrees(old(objects), reference, canonical, objects, outcome)
    {
      var inserted := InsertedKeys(objects, [reference]);
      objects := InsertMissing(objects, map[reference := canonical], [reference]);
      if inserted != {} {
        assert reference in inserted;
        return PutOutcome(true, canonical);
      }
      assert reference !in InsertedKeys(old(objects), [reference]);
      return PutOutcome(false, objects[reference]);
    }

    /** ORDER BY (schema = :schema) DESC LIMIT 1: the exact object, or else any object with the same content hash. */
    method GetObject(reference: ObjectReference) returns (row: Option<(string, string)>)
      ensures ExactOrSameHash(objects, reference, row)
    {
      var candidates := set r | r in objects && r.contentHash == reference.contentHash;
      if reference in candidates {
        return Some((reference.schema, objects[reference]));
      } else if candidates != {} {
        var r :| r in candidates;
        return Some((r.schema, objects[r]));
      }
      assert forall r | r in objects && r.contentHash == reference.contentHash :: r in candidates;
      return None;
    }

    method Bind(key: string, reference: ObjectReference) returns (outcome: BindOutcome)
      modifies this`bindings
      ensures BindAgrees(old(bindings), key, reference, bindings, outcome)
    {
      var inserted := InsertedKeys(bindings, [key]);
      bindings := InsertMissing(bindings, map[key := reference], [key]);
      assert inserted == if key in old(bindings) then {} else {key};
      return BindOutcome(inserted != {}, bindings[key]);
    }

    /** SELECT ... WHERE key = ANY(chunk), chunk by chunk. */
    method FetchBindings(keys: seq<string>) returns (found: Bindings)
      requires batchChunkSize > 0
      ensures found == Fetch(bindings, keys)
    {
      found := map[];
      var start := 0;
      while start < |keys|
        invariant start <= |keys| && found == Fetch(bindings, keys[..start])
      {
        var end := ChunkEnd(|keys|, start, batchChunkSize);
        ChunkSplits(keys, start, end);
        FetchAppends(bindings, keys[..start], keys[start..end]);
        found := found + Fetch(bindings, keys[start..end]);
        start := end;
      }
      assert keys[..start] == keys;
    }

    method FetchObjects(references: seq<ObjectReference>) returns (found: Objects)
      requires batchChunkSize > 0
      ensures found == Fetch(objects, references)
    {
      found := map[];
      var start := 0;
      while start < |references|
        invariant start <= |references| && found == Fetch(objects, references[..start])
      {
        var end := ChunkEnd(|references|, start, batchChunkSize);
        ChunkSplits(references, start, end);
        FetchAppends(objects, references[..start], references[start..end]);
        found := found + Fetch(objects, references[start..end]);
        start := end;
      }
      assert references[..start] == references;
    }

    /** Two chunked reads and a join in memory. The references are fetched in the order of their keys. */
    method GetBoundObjects(keys: seq<string>) returns (rows: map<string, BoundObjectRow>)
      requires batchChunkSize > 0
      ensures rows == BoundRows(objects, bindings, keys)
    {
      var distinct := Distinct(keys);
      var found := FetchBindings(distinct);
      var references: seq<ObjectReference> := [];
      for i := 0 to |distinct|
        invariant forall j | 0 <= j < i && distinct[j] in found :: found[distinct[j]] in references
      {
        if distinct[i] in found && found[distinct[i]] !in references {
          references := references + [found[distinct[i]]];
        }
      }
      var stored := FetchObjects(references);
      rows := map k | k in found :: BoundObjectRow(found[k], Lookup(stored, found[k]));
      assert forall k | k in found :: found[k] in references;
    }

    /** DELETE ... WHERE key = ANY(chunk) RETURNING key, chunk by chunk in one transaction. */
    method DeleteBindings(keys: seq<string>) returns (deleted: set<string>)
      requires batchChunkSize > 0
      modifies this`bindings
      ensures bindings == Without(old(bindings), keys)
      ensures deleted == BoundKeys(old(bindings), keys)
    {
      var distinct := Distinct(keys);
      deleted := {};
      var start := 0;
      while start < |distinct|
        invariant start <= |distinct|
        invariant bindings == Without(old(bindings), distinct[..start])
        invariant deleted == BoundKeys(old(bindings), distinct[..start])
      {
        var end := ChunkEnd(|distinct|, start, batchChunkSize);
        var chunk := distinct[start..end];
        ChunkSplits(distinct, start, end);
        WithoutAppends(old(bindings), distinct[..start], chunk);
        var returned := set k | k in chunk && k in bindings;
        bindings := bindings - returned;
        deleted := deleted + returned;
        start := end;
      }
      assert distinct[..start] == distinct;
    }

    /** Deduplicate a batch, or find the first entry that differs from an earlier one. */
    method Deduplicate(entries: Entries)
      returns (clash: Option<nat>, references: seq<ObjectReference>, proposed: Objects, keys: seq<string>,
          writes: Bindings)
      ensures clash.Some? ==> FirstClash(map[], entries, clash.value)
      ensures clash.None? ==>
                && Proposed(map[], entries, |entries|, proposed) && FirstReferences(entries, |entries|, references)
                && FirstWrites(entries, |entries|, keys, writes)
    {
      references, proposed, keys, writes := [], map[], [], map[];
      for i := 0 to |entries|
        invariant Proposed(map[], entries, i, proposed) && FirstReferences(entries, i, references)
        invariant FirstWrites(entries, i, keys, writes)
      {
        var entry := entries[i];
        ProposeOne(map[], entries, i, proposed);
        FirstReferencesStep(entries, i, references);
        FirstWritesStep(entries, i, keys, writes);
        if entry.reference !in proposed {
          references := references + [entry.reference];
        }
        proposed := Propose(proposed, entry);
        if proposed[entry.reference] != entry.canonical {
          return Some(i), references, proposed, keys, writes;
        }
        if entry.key !in writes {
          keys := keys + [entry.key];
        }
        writes := BindEntry(writes, entry);
      }
      return None, references, proposed, keys, writes;
    }

    /** INSERT ... ON CONFLICT DO NOTHING of the distinct objects, chunk by chunk. */
    method InsertObjects(references: seq<ObjectReference>, proposed: Objects)
      requires batchChunkSize > 0
      modifies this`objects
      ensures objects == InsertMissing(old(objects), proposed, references)
    {
      var start := 0;
      assert InsertMissing(objects, proposed, references[..0]) == objects;
      while start < |references|
        invariant start <= |references| && objects == InsertMissing(old(objects), proposed, references[..start])
      {
        var end := ChunkEnd(|references|, start, batchChunkSize);
        ChunkSplits(references, start, end);
        InsertMissingAppends(old(objects), proposed, references[..start], references[start..end]);
        objects := InsertMissing(objects, proposed, references[start..end]);
        start := end;
      }
      assert references[..start] == references;
    }

    /** INSERT ... ON CONFLICT DO NOTHING RETURNING key of the distinct writes, chunk by chunk. */
    method InsertBindings(keys: seq<string>, writes: Bindings) returns (inserted: set<string>)
      requires batchChunkSize > 0 && NoDuplicates(keys)
      modifies this`bindings
      ensures bindings == InsertMissing(old(bindings), writes, keys)
      ensures inserted == InsertedKeys(old(bindings), keys)
    {
      inserted := {};
      var start := 0;
      assert InsertMissing(bindings, writes, keys[..0]) == bindings;
      while start < |keys|
        invariant start <= |keys| && bindings == InsertMissing(old(bindings), writes, keys[..start])
        invariant inserted == InsertedKeys(old(bindings), keys[..start])
      {
        var end := ChunkEnd(|keys|, start, batchChunkSize);
        ChunkSplits(keys, start, end);
        InsertMissingAppends(old(bindings), writes, keys[..start], keys[start..end]);
        InsertedKeysAppend(old(bindings), writes, keys[..start], keys[start..end]);
        inserted := inserted + InsertedKeys(bindings, keys[start..end]);
        bindings := InsertMissing(bindings, writes, keys[start..end]);
        start := end;
      }
      assert keys[..start] == keys;
    }

    /** Insert the distinct writes, read the bindings back, and report every key. */
    method BindWrites(ghost entries: Entries, keys: seq<string>, writes: Bindings)
        returns (outcomes: map<string, BindOutcome>)
      requires batchChunkSize > 0 && FirstWrites(entries, |entries|, keys, writes)
      modifies this`bindings
      ensures BindingsAgree(old(bindings), entries, |entries|, bindings, outcomes)
    {
      var inserted := InsertBindings(keys, writes);
      var bound := FetchBindings(keys);
      InsertedBindingsAgree(old(bindings), entries, keys, writes);
      outcomes := map k | k in writes.Keys && k in bound :: BindOutcome(k in inserted, bound[k]);
    }

    /** The first reference whose stored text is not the proposed one. */
    method FirstDifference(references: seq<ObjectReference>, proposed: Objects, stored: Objects)
        returns (k: Option<nat>)
      requires forall r | r in references :: r in proposed && r in stored
      ensures k.None? ==> forall r | r in references :: stored[r] == proposed[r]
      ensures k.Some? ==> k.value < |references| && stored[references[k.value]] != proposed[references[k.value]]
                          && forall j | 0 <= j < k.value :: stored[references[j]] == proposed[references[j]]
    {
      for i := 0 to |references|
        invariant forall j | 0 <= j < i :: stored[references[j]] == proposed[references[j]]
      {
        if stored[references[i]] != proposed[references[i]] {
          return Some(i);
        }
      }
      return None;
    }

    /** The whole batch. A conflict inside the batch is found before any statement runs, so it is reported
        ahead of a conflict with a stored object. */
    method PutBoundObjects(entries: Entries) returns (result: BatchResult)
      requires batchChunkSize > 0
      modifies this
      ensures BatchAgrees(old(objects), old(bindings), entries, objects, bindings, result)
      ensures NamesBatchClashFirst(old(objects), entries, result)
    {
      var begun := objects;
      var clash, references, proposed, keys, writes := Deduplicate(entries);
      if clash.Some? {
        FirstClashDisagrees(map[], entries, clash.value);
        return Conflict(entries[clash.value].reference);
      }
      InsertObjects(references, proposed);
      var stored := FetchObjects(references);
      var differing := FirstDifference(references, proposed, stored);
      if differing.Some? {
        StoredClashIsFirst(begun, entries, references, proposed, differing.value);
        objects := begun;
        return Conflict(references[differing.value]);
      }
      InsertedObjectsAgree(begun, entries, references, proposed);
      var outcomes := BindWrites(entries, keys, writes);
      return Stored(outcomes);
    }
  }
}
