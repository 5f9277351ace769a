/** The process-local backend (src/dr_store/storage_backends/memory.py). Each method runs under the backend's lock. */
module MemoryStorage {
  import opened Wrappers
  import opened ObjectReferences
  import opened StorageContract

  class MemoryBackend {
    var objects: Objects
    var bindings: Bindings

    constructor ()
      ensures objects == map[] && bindings == map[]
    {
      objects, bindings := map[], map[];
    }

    method PutObject(reference: ObjectReference, canonical: string) returns (outcome: PutOutcome)
      modifies this`objects
      ensures PutAgrees(old(objects), reference, canonical, objects, outcome)
    {
      if reference !in objects {
        objects := objects[reference := canonical];
        return PutOutcome(true, canonical);
      }
      return PutOutcome(false, objects[reference]);
    }

    /** The exact object, or else any object with the same content hash. */
    method GetObject(reference: ObjectReference) returns (row: Option<(string, string)>)
      ensures ExactOrSameHash(objects, reference, row)
    {
      if reference in objects {
        return Some((reference.schema, objects[reference]));
      }
      var remaining := objects.Keys;
      while remaining != {}
        invariant remaining <= objects.Keys
        invariant forall r | r in objects.Keys - remaining :: r.contentHash != reference.contentHash
      {
        var r :| r in remaining;
        if r.contentHash == reference.contentHash {
          return Some((r.schema, objects[r]));
        }
        remaining := remaining - {r};
      }
      return None;
    }

    method Bind(key: string, reference: ObjectReference) returns (outcome: BindOutcome)
      modifies this`bindings
      ensures BindAgrees(old(bindings), key, reference, bindings, outcome)
    {
      if key !in bindings {
        bindings := bindings[key := reference];
        return BindOutcome(true, reference);
      }
      return BindOutcome(false, bindings[key]);
    }

    method GetBoundObjects(keys: seq<string>) returns (rows: map<string, BoundObjectRow>)
      ensures rows == BoundRows(objects, bindings, keys)
    {
      rows := map[];
      for i := 0 to |keys|
        invariant rows == BoundRows(objects, bindings, keys[..i])
      {
        assert keys[..i + 1] == keys[..i] + [keys[i]];
        BoundRowsAppend(objects, bindings, keys[..i], [keys[i]]);
        if keys[i] in bindings {
          var reference := bindings[keys[i]];
          rows := rows[keys[i] := BoundObjectRow(reference, Lookup(objects, reference))];
        }
      }
      assert keys[..|keys|] == keys;
    }

    method DeleteBindings(keys: seq<string>) returns (deleted: set<string>)
      modifies this`bindings
      ensures bindings == Without(old(bindings), keys)
      ensures deleted == BoundKeys(old(bindings), keys)
    {
      deleted := {};
      for i := 0 to |keys|
        invariant bindings == Without(old(bindings), keys[..i])
        invariant deleted == BoundKeys(old(bindings), keys[..i])
      {
        assert keys[..i + 1] == keys[..i] + [keys[i]];
        WithoutAppends(old(bindings), keys[..i], [keys[i]]);
        if keys[i] in bindings {
          bindings := bindings - {keys[i]};
          deleted := deleted + {keys[i]};
        }
      }
      assert keys[..|keys|] == keys;
    }

    /** The first loop of a batch: collect the proposed texts, or find the first clash. */
    method Collect(entries: Entries) returns (proposed: Objects, clash: Option<nat>)
      ensures clash.None? ==> Proposed(objects, entries, |entries|, proposed)
      ensures clash.Some? ==> FirstClash(objects, entries, clash.value)
    {
      proposed := map[];
      for i := 0 to |entries|
        invariant Proposed(objects, entries, i, proposed)
      {
        var entry := entries[i];
        ProposeOne(objects, entries, i, proposed);
        proposed := Propose(proposed, entry);
        if proposed[entry.reference] != entry.canonical
           || (entry.reference in objects && objects[entry.reference] != entry.canonical) {
          return proposed, Some(i);
        }
      }
      return proposed, None;
    }

    /** The last loop of a batch: the first entry of an unbound key binds it. */
    method BindFirstWinners(entries: Entries) returns (outcomes: map<string, BindOutcome>)
      modifies this`bindings
      ensures BindingsAgree(old(bindings), entries, |entries|, bindings, outcomes)
    {
      outcomes := map[];
      for i := 0 to |entries|
        invariant BindingsAgree(old(bindings), entries, i, bindings, outcomes)
      {
        var entry := entries[i];
        if entry.key in outcomes {
          SeenKeyAgrees(old(bindings), entries, i, bindings, outcomes);
          continue;
        }
        NewKeyAgrees(old(bindings), entries, i, bindings, outcomes);
        outcomes := outcomes[entry.key := OutcomeFor(bindings, entry)];
        bindings := BindEntry(bindings, entry);
      }
    }

    /** A batch put: agree on every entry before anything is stored, then store, then bind. */
    method PutBoundObjects(entries: Entries) returns (result: BatchResult)
      modifies this
      ensures BatchAgrees(old(objects), old(bindings), entries, objects, bindings, result)
      ensures NamesFirstClash(old(objects), entries, result)
    {
      var proposed, clash := Collect(entries);
      if clash.Some? {
        FirstClashDisagrees(objects, entries, clash.value);
        return Conflict(entries[clash.value].reference);
      }
      ProposedAgrees(objects, entries, proposed);
      objects := objects + proposed;
      var outcomes := BindFirstWinners(entries);
      return Stored(outcomes);
    }
  }
}
