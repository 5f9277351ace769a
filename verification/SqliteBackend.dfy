/** The SQLite backend's transactions (src/dr_store/storage_backends/sqlite.py): per-row statements inside
    BEGIN IMMEDIATE, undone by ROLLBACK when an exception leaves the block. */
module SqliteStorage {
  import opened Wrappers
  import opened ObjectReferences
  import opened StorageContract
  import opened SqlTables

  const KEY_QUERY_CHUNK_SIZE := 999

  ghost predicate FirstOfReference(entries: Entries, i: nat)
    requires i < |entries|
  {
    forall j | 0 <= j < i :: entries[j].reference != entries[i].reference
  }

  /** The objects after INSERT OR IGNORE of the first n entries. */
  ghost predicate InsertedRows(before: Objects, entries: Entries, n: nat, after: Objects)
    requires n <= |entries|
  {
    && after.Keys == before.Keys + ReferencesOf(entries, n)
    && (forall r | r in before :: after[r] == before[r])
    && (forall i | 0 <= i < n && FirstOfReference(entries, i) && entries[i].reference !in before ::
          entries[i].reference in after && after[entries[i].reference] == entries[i].canonical)
  }

  lemma InsertOneRow(before: Objects, entries: Entries, n: nat, after: Objects)
    requires n < |entries| && InsertedRows(before, entries, n, after)
    ensures InsertedRows(before, entries, n + 1,
                         if entries[n].reference in after then after
                         else after[entries[n].reference := entries[n].canonical])
  {
    InReferencesOf(entries, n, entries[n].reference);
  }

  lemma {:induction false} FirstRow(entries: Entries, i: nat) returns (m: nat)
    requires i < |entries|
    ensures m <= i && entries[m].reference == entries[i].reference && FirstOfReference(entries, m)
  {
    if j: nat :| j < i && entries[j].reference == entries[i].reference {
      m := FirstRow(entries, j);
    } else {
      m := i;
    }
  }

  /** The stored row differs from an entry exactly when the entry clashes, as long as no earlier entry did. */
  lemma {:induction false} StoredRowTellsClash(before: Objects, entries: Entries, i: nat, after: Objects)
    requires i < |entries| && InsertedRows(before, entries, |entries|, after)
    requires forall j | 0 <= j < i ::
               entries[j].reference in after && after[entries[j].reference] == entries[j].canonical
    ensures entries[i].reference in after
    ensures after[entries[i].reference] != entries[i].canonical <==> ClashesAt(before, entries, i)
    ensures forall j | 0 <= j < i :: !ClashesAt(before, entries, j)
  {
    InReferencesOf(entries, |entries|, entries[i].reference);
    var m := FirstRow(entries, i);
    if after[entries[i].reference] != entries[i].canonical && entries[i].reference !in before {
      assert entries[m].canonical != entries[i].canonical;
    }
  }

  class SqliteBackend {
    var objects: Objects
    var bindings: Bindings

    constructor ()
      ensures objects == map[] && bindings == map[]
    {
      objects, bindings := map[], map[];
    }

    method PutObject(reference: ObjectReference, canonical: string) returns (outcome: PutOutcome)
      modifies this`objects
      ensures PutAgrees(old(objects), reference, canonical, objects, outcome)
    {
      var inserted := reference !in objects;
      if inserted {
        objects := objects[reference := canonical];
      }
      return PutOutcome(inserted, objects[reference]);
    }

    /** ORDER BY schema = ? DESC LIMIT 1: the exact object, or else any object with the same content hash. */
    method GetObject(reference: ObjectReference) returns (row: Option<(string, string)>)
      ensures ExactOrSameHash(objects, reference, row)
    {
      var candidates := set r | r in objects && r.contentHash == reference.contentHash;
      if reference in candidates {
        return Some((reference.schema, objects[reference]));
      } else if candidates != {} {
        var r :| r in candidates;
        return Some((r.schema, objects[r]));
      }
      assert forall r | r in objects && r.contentHash == reference.contentHash :: r in candidates;
      return None;
    }

    method Bind(key: string, reference: ObjectReference) returns (outcome: BindOutcome)
      modifies this`bindings
      ensures BindAgrees(old(bindings), key, reference, bindings, outcome)
    {
      var bound := key !in bindings;
      if bound {
        bindings := bindings[key := reference];
      }
      return BindOutcome(bound, bindings[key]);
    }

    /** LEFT JOIN of bindings and objects, chunk by chunk. */
    method GetBoundObjects(keys: seq<string>) returns (rows: map<string, BoundObjectRow>)
      ensures rows == BoundRows(objects, bindings, keys)
    {
      rows := map[];
      var start := 0;
      while start < |keys|
        invariant start <= |keys|
        invariant rows == BoundRows(objects, bindings, keys[..start])
      {
        var end := ChunkEnd(|keys|, start, KEY_QUERY_CHUNK_SIZE);
        var chunk := keys[start..end];
        var stored := map k | k in chunk && k in bindings :: BoundObjectRow(bindings[k], Lookup(objects, bindings[k]));
        ChunkSplits(keys, start, end);
        BoundRowsAppend(objects, bindings, keys[..start], chunk);
        rows := rows + stored;
        start := end;
      }
      assert keys[..start] == keys;
    }

    /** DELETE ... WHERE key IN (...) RETURNING key, chunk by chunk in one transaction. */
    method DeleteBindings(keys: seq<string>) returns (deleted: set<string>)
      modifies this`bindings
      ensures bindings == Without(old(bindings), keys)
      ensures deleted == BoundKeys(old(bindings), keys)
    {
      deleted := {};
      var start := 0;
      while start < |keys|
        invariant start <= |keys|
        invariant bindings == Without(old(bindings), keys[..start])
        invariant deleted == BoundKeys(old(bindings), keys[..start])
      {
        var end := ChunkEnd(|keys|, start, KEY_QUERY_CHUNK_SIZE);
        var chunk := keys[start..end];
        ChunkSplits(keys, start, end);
        WithoutAppends(old(bindings), keys[..start], chunk);
        var returned := set k | k in chunk && k in bindings;
        bindings := bindings - returned;
        deleted := deleted + returned;
        start := end;
      }
      assert keys[..start] == keys;
    }

    /** INSERT OR IGNORE of every entry's object, in order. */
    method InsertObjects(entries: Entries)
      modifies this`objects
      ensures InsertedRows(old(objects), entries, |entries|, objects)
    {
      for i := 0 to |entries|
        invariant InsertedRows(old(objects), entries, i, objects)
      {
        InsertOneRow(old(objects), entries, i, objects);
        if entries[i].reference !in objects {
          objects := objects[entries[i].reference := entries[i].canonical];
        }
      }
    }

    /** INSERT OR IGNORE and re-read of every distinct key's binding, in order. */
    method InsertBindings(entries: Entries) returns (outcomes: map<string, BindOutcome>)
      modifies this`bindings
      ensures BindingsAgree(old(bindings), entries, |entries|, bindings, outcomes)
    {
      outcomes := map[];
      for i := 0 to |entries|
        invariant BindingsAgree(old(bindings), entries, i, bindings, outcomes)
      {
        var entry := entries[i];
        if entry.key in outcomes {
          SeenKeyAgrees(old(bindings), entries, i, bindings, outcomes);
          continue;
        }
        NewKeyAgrees(old(bindings), entries, i, bindings, outcomes);
        outcomes := outcomes[entry.key := OutcomeFor(bindings, entry)];
        bindings := BindEntry(bindings, entry);
      }
    }

    /** The first entry whose stored text is not its own. */
    method CompareWithStored(entries: Entries, ghost begun: Objects) returns (clash: Option<nat>)
      requires InsertedRows(begun, entries, |entries|, objects)
      ensures clash.Some? ==> FirstClash(begun, entries, clash.value)
      ensures clash.None? ==> !Disagrees(begun, entries) && ObjectsAgree(begun, entries, |entries|, objects)
    {
      for i := 0 to |entries|
        invariant forall j | 0 <= j < i ::
                    entries[j].reference in objects && objects[entries[j].reference] == entries[j].canonical
      {
        StoredRowTellsClash(begun, entries, i, objects);
        if objects[entries[i].reference] != entries[i].canonical {
          return Some(i);
        }
      }
      NoClashNoDisagreement(begun, entries, objects);
      return None;
    }

    /** Insert first, compare with what is stored, and roll the objects back on a conflict. */
    method PutBoundObjects(entries: Entries) returns (result: BatchResult)
      modifies this
      ensures BatchAgrees(old(objects), old(bindings), entries, objects, bindings, result)
      ensures NamesFirstClash(old(objects), entries, result)
    {
      var begun := objects;
      InsertObjects(entries);
      var clash := CompareWithStored(entries, begun);
      if clash.Some? {
        FirstClashDisagrees(begun, entries, clash.value);
        objects := begun;
        return Conflict(entries[clash.value].reference);
      }
      var outcomes := InsertBindings(entries);
      return Stored(outcomes);
    }
  }

  lemma NoClashNoDisagreement(before: Objects, entries: Entries, after: Objects)
    requires InsertedRows(before, entries, |entries|, after)
    requires forall j | 0 <= j < |entries| ::
               entries[j].reference in after && after[entries[j].reference] == entries[j].canonical
    ensures !Disagrees(before, entries) && ObjectsAgree(before, entries, |entries|, after)
  {
    if Disagrees(before, entries) {
      var i := DisagreesHasFirstClash(before, entries);
      StoredRowTellsClash(before, entries, i, after);
    }
  }
}
