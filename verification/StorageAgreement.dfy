/** The three backends beside each other. */
module StorageAgreement {
  import opened ObjectReferences
  import opened StorageContract
  import opened MemoryStorage
  import opened SqliteStorage
  import opened PostgresStorage

  ghost predicate DiffersFromStored(objects: Objects, entries: Entries, i: nat)
    requires i < |entries|
  {
    entries[i].reference in objects && objects[entries[i].reference] != entries[i].canonical
  }

  /** Entry i is the first whose text differs from its stored text. */
  ghost predicate FirstStoredDifference(objects: Objects, entries: Entries, i: nat) {
    i < |entries| && DiffersFromStored(objects, entries, i)
        && forall j | 0 <= j < i :: !DiffersFromStored(objects, entries, j)
  }

  /** A difference from the store comes before the first clash inside the batch, at another reference. */
  ghost predicate Masks(objects: Objects, entries: Entries) {
    exists i: nat, k: nat ::
      && i < k && FirstStoredDifference(objects, entries, i) && FirstClash(map[], entries, k)
      && entries[i].reference != entries[k].reference
  }

  lemma FirstClashIsUnique(objects: Objects, entries: Entries, i: nat, j: nat)
    requires FirstClash(objects, entries, i) && FirstClash(objects, entries, j)
    ensures i == j
  {}

  /** An entry clashes with the store and the batch exactly if it clashes with one of them. */
  lemma ClashSplits(objects: Objects, entries: Entries, i: nat)
    requires i < |entries|
    ensures ClashesAt(objects, entries, i) <==> DiffersFromStored(objects, entries, i) || ClashesAt(map[], entries, i)
  {}

  lemma MasksDisagrees(objects: Objects, entries: Entries)
    requires Masks(objects, entries)
    ensures Disagrees(objects, entries) && Disagrees(map[], entries)
  {
    var i: nat, k: nat :| i < k && FirstStoredDifference(objects, entries, i) && FirstClash(map[], entries, k);
    FirstClashDisagrees(map[], entries, k);
  }

  /** When the batch disagrees with itself, the first clash of all is no later than the first inside the batch. */
  lemma ClashesCompare(objects: Objects, entries: Entries, a: nat, k: nat)
    requires FirstClash(objects, entries, a) && FirstClash(map[], entries, k)
    ensures a <= k
    ensures a < k ==> FirstStoredDifference(objects, entries, a)
    ensures Masks(objects, entries) <==> a < k && entries[a].reference != entries[k].reference
  {
    ClashSplits(objects, entries, a);
    ClashSplits(objects, entries, k);
    if Masks(objects, entries) {
      var i: nat, m: nat :| i < m && FirstStoredDifference(objects, entries, i) && FirstClash(map[], entries, m)
                            && entries[i].reference != entries[m].reference;
      FirstClashIsUnique(map[], entries, k, m);
      ClashSplits(objects, entries, i);
      assert a <= i;
    }
    forall j | 0 <= j < a ensures !DiffersFromStored(objects, entries, j) {
      ClashSplits(objects, entries, j);
    }
  }

  /** NAMED REFERENCES, EXACTLY: on the same batch and tables, a backend that names the first clash and one that
      looks inside the batch first name the same reference unless the batch masks a stored difference. */
  lemma NamedReferencesAgreeExactly(objects: Objects, entries: Entries, m: BatchResult, p: BatchResult)
    requires m.Conflict? && NamesFirstClash(objects, entries, m)
    requires p.Conflict? && NamesBatchClashFirst(objects, entries, p)
    ensures m == p <==> !Masks(objects, entries)
  {
    var a: nat :| FirstClash(objects, entries, a) && m.reference == entries[a].reference;
    var k: nat :| (FirstClash(map[], entries, k) || (!Disagrees(map[], entries) && FirstClash(objects, entries, k)))
                  && p.reference == entries[k].reference;
    if FirstClash(map[], entries, k) {
      ClashesCompare(objects, entries, a, k);
    } else {
      FirstClashIsUnique(objects, entries, a, k);
      if Masks(objects, entries) {
        MasksDisagrees(objects, entries);
      }
    }
  }

  /** AGREEMENT: from equal tables, the same batch leaves equal tables and the same outcome of every key in
      all three backends, or conflicts in all three and changes none, for every entry list and chunk size.
      Memory and SQLite answer the same; PostgreSQL does exactly unless the batch masks a stored difference. */
  method PutEverywhere(memory: MemoryBackend, sqlite: SqliteBackend, postgres: PostgresBackend, entries: Entries)
    returns (m: BatchResult, s: BatchResult, p: BatchResult)
    requires postgres.batchChunkSize > 0
    requires memory.objects == sqlite.objects == postgres.objects
    requires memory.bindings == sqlite.bindings == postgres.bindings
    modifies memory, sqlite, postgres
    ensures memory.objects == sqlite.objects == postgres.objects
    ensures memory.bindings == sqlite.bindings == postgres.bindings
    ensures m == s && (p.Conflict? <==> m.Conflict?) && (p.Stored? ==> p == m)
    ensures m.Conflict? <==> Disagrees(old(memory.objects), entries)
    ensures m.Conflict? ==> memory.objects == old(memory.objects) && memory.bindings == old(memory.bindings)
    ensures m == p <==> !Masks(old(memory.objects), entries)
  {
    ghost var objects, bindings := memory.objects, memory.bindings;
    m := memory.PutBoundObjects(entries);
    s := sqlite.PutBoundObjects(entries);
    p := postgres.PutBoundObjects(entries);
    BatchIsDetermined(objects, bindings, entries, memory.objects, memory.bindings, m, sqlite.objects, sqlite.bindings,
      s);
    BatchIsDetermined(objects, bindings, entries, memory.objects, memory.bindings, m, postgres.objects,
      postgres.bindings, p);
    if m.Conflict? {
      SameFirstClash(objects, entries, m, s);
      NamedReferencesAgreeExactly(objects, entries, m, p);
    } else if Masks(objects, entries) {
      MasksDisagrees(objects, entries);
    }
  }

  lemma SameFirstClash(objects: Objects, entries: Entries, a: BatchResult, b: BatchResult)
    requires a.Conflict? && NamesFirstClash(objects, entries, a) && b.Conflict? && NamesFirstClash(objects, entries, b)
    ensures a == b
  {
    var i: nat :| FirstClash(objects, entries, i) && a.reference == entries[i].reference;
    var j: nat :| FirstClash(objects, entries, j) && b.reference == entries[j].reference;
    FirstClashIsUnique(objects, entries, i, j);
  }

  /** For any stored object, any other reference and any two texts there is a batch on which every pair of
      answers that meet the two contracts name different references: the stored one, and the other one. */
  lemma NamedReferencesCanDiffer(a: ObjectReference, b: ObjectReference, stored: string, other: string)
      returns (entries: Entries)
    requires a != b && stored != other
    ensures var objects: Objects := map[a := stored];
            && Masks(objects, entries)
            && forall m: BatchResult, p: BatchResult |
                 m.Conflict? && NamesFirstClash(objects, entries, m) && p.Conflict?
                     && NamesBatchClashFirst(objects, entries, p) ::
                 m == Conflict(a) && p == Conflict(b)
  {
    var objects: Objects := map[a := stored];
    entries := [BoundObjectWrite("k", a, other), BoundObjectWrite("k", b, stored), BoundObjectWrite("k", b, other)];
    assert entries[1].reference == entries[2].reference && entries[1].canonical != entries[2].canonical;
    assert FirstClash(map[], entries, 2) && FirstClash(objects, entries, 0)
      && FirstStoredDifference(objects, entries, 0);
    forall m: BatchResult, p: BatchResult |
      m.Conflict? && NamesFirstClash(objects, entries, m) && p.Conflict? && NamesBatchClashFirst(objects, entries, p)
      ensures m == Conflict(a) && p == Conflict(b)
    {
      var i: nat :| FirstClash(objects, entries, i) && m.reference == entries[i].reference;
      FirstClashIsUnique(objects, entries, i, 0);
      FirstClashDisagrees(map[], entries, 2);
      var k: nat :| FirstClash(map[], entries, k) && p.reference == entries[k].reference;
      FirstClashIsUnique(map[], entries, k, 2);
    }
  }
}
