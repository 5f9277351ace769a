/** What every storage backend promises (src/dr_store/storage_backends/contract.py), stated on tables as maps. */
module StorageContract {
  import opened Wrappers
  import opened ObjectReferences

  datatype PutOutcome = PutOutcome(inserted: bool, storedCanonical: string)

  datatype BindOutcome = BindOutcome(bound: bool, existing: ObjectReference)

  datatype BoundObjectRow = BoundObjectRow(binding: ObjectReference, canonical: Option<string>)

  datatype BoundObjectWrite = BoundObjectWrite(key: string, reference: ObjectReference, canonical: string)

  /** The object conflict names the reference it found two texts for. */
  datatype BatchResult = Conflict(reference: ObjectReference) | Stored(outcomes: map<string, BindOutcome>)

  type Objects = map<ObjectReference, string>
  type Bindings = map<string, ObjectReference>
  type Entries = seq<BoundObjectWrite>

  /** A lookup gives the exact object, or else some object with the same content hash, or else nothing. */
  ghost predicate ExactOrSameHash(objects: Objects, reference: ObjectReference, row: Option<(string, string)>) {
    if reference in objects then row == Some((reference.schema, objects[reference]))
    else if row.Some? then
      var other := ObjectReference(row.value.0, reference.contentHash);
      other in objects && objects[other] == row.value.1
    else forall r | r in objects :: r.contentHash != reference.contentHash
  }

  /** A single put: the first text of a reference stays, and the outcome tells which text is stored. */
  ghost predicate PutAgrees(before: Objects, reference: ObjectReference, canonical: string, after: Objects,
                            outcome: PutOutcome)
  {
    && after.Keys == before.Keys + {reference}
    && (forall r | r in before :: after[r] == before[r])
    && (reference !in before ==> after[reference] == canonical)
    && outcome == PutOutcome(reference !in before, after[reference])
  }

  /** A single bind: the first reference of a key stays, and the outcome tells which reference is bound. */
  ghost predicate BindAgrees(before: Bindings, key: string, reference: ObjectReference, after: Bindings,
                             outcome: BindOutcome)
  {
    && after.Keys == before.Keys + {key}
    && (forall k | k in before :: after[k] == before[k])
    && (key !in before ==> after[key] == reference)
    && outcome == BindOutcome(key !in before, after[key])
  }

  // ---- Batch puts ----

  /** Stored objects and proposed entries hold two texts for one reference. */
  ghost predicate Disagrees(objects: Objects, entries: Entries) {
    || (exists i :: 0 <= i < |entries| && entries[i].reference in objects
                    && objects[entries[i].reference] != entries[i].canonical)
    || (exists i, j :: 0 <= i < j < |entries| && entries[i].reference == entries[j].reference
                       && entries[i].canonical != entries[j].canonical)
  }

  /** Entry i differs from the stored object or from an earlier entry. */
  ghost predicate ClashesAt(objects: Objects, entries: Entries, i: nat)
    requires i < |entries|
  {
    || (entries[i].reference in objects && objects[entries[i].reference] != entries[i].canonical)
    || (exists j :: 0 <= j < i && entries[j].reference == entries[i].reference
                    && entries[j].canonical != entries[i].canonical)
  }

  ghost predicate FirstClash(objects: Objects, entries: Entries, i: nat) {
    i < |entries| && ClashesAt(objects, entries, i) && forall j | 0 <= j < i :: !ClashesAt(objects, entries, j)
  }

  /** A conflict names the first entry that clashes with the stored objects or an earlier entry. */
  ghost predicate NamesFirstClash(objects: Objects, entries: Entries, result: BatchResult) {
    result.Conflict? ==> exists i: nat :: FirstClash(objects, entries, i) && result.reference == entries[i].reference
  }

  /** A conflict names the first entry that clashes inside the batch, and only without one the first that clashes
      with the stored objects. */
  ghost predicate NamesBatchClashFirst(objects: Objects, entries: Entries, result: BatchResult) {
    result.Conflict? ==>
      exists i: nat ::
        && (FirstClash(map[], entries, i) || (!Disagrees(map[], entries) && FirstClash(objects, entries, i)))
        && result.reference == entries[i].reference
  }

  function ReferencesOf(entries: Entries, n: nat): set<ObjectReference>
    requires n <= |entries|
  {
    if n == 0 then {} else ReferencesOf(entries, n - 1) + {entries[n - 1].reference}
  }

  function KeysOf(entries: Entries, n: nat): set<string>
    requires n <= |entries|
  {
    if n == 0 then {} else KeysOf(entries, n - 1) + {entries[n - 1].key}
  }

  /** The objects after the first n entries: nothing stored changed, and every entry is stored under its reference. */
  ghost predicate ObjectsAgree(before: Objects, entries: Entries, n: nat, after: Objects)
    requires n <= |entries|
  {
    && after.Keys == before.Keys + ReferencesOf(entries, n)
    && (forall r | r in before :: after[r] == before[r])
    && (forall i | 0 <= i < n :: entries[i].reference in after && after[entries[i].reference] == entries[i].canonical)
  }

  ghost predicate FirstOfKey(entries: Entries, i: nat)
    requires i < |entries|
  {
    forall j | 0 <= j < i :: entries[j].key != entries[i].key
  }

  /** The bindings and outcomes after the first n entries: a bound key keeps its reference, an unbound key
      takes the reference of its first entry, and each key reports its winner. */
  ghost predicate BindingsAgree(before: Bindings, entries: Entries, n: nat, after: Bindings,
                                outcomes: map<string, BindOutcome>)
    requires n <= |entries|
  {
    && outcomes.Keys == KeysOf(entries, n)
    && after.Keys == before.Keys + KeysOf(entries, n)
    && (forall k | k in before :: after[k] == before[k])
    && (forall i | 0 <= i < n && FirstOfKey(entries, i) && entries[i].key !in before ::
          entries[i].key in after && after[entries[i].key] == entries[i].reference)
    && (forall k | k in outcomes :: outcomes[k] == BindOutcome(k !in before, after[k]))
  }

  /** The whole contract of a batch put. */
  ghost predicate BatchAgrees(objects: Objects, bindings: Bindings, entries: Entries,
                              objects': Objects, bindings': Bindings, result: BatchResult)
  {
    if Disagrees(objects, entries) then
      result.Conflict? && objects' == objects && bindings' == bindings
    else
      && result.Stored?
      && ObjectsAgree(objects, entries, |entries|, objects')
      && BindingsAgree(bindings, entries, |entries|, bindings', result.outcomes)
  }

  lemma {:induction false} InReferencesOf(entries: Entries, n: nat, r: ObjectReference)
    requires n <= |entries|
    ensures r in ReferencesOf(entries, n) <==> exists i :: 0 <= i < n && entries[i].reference == r
  {
    if n > 0 {
      InReferencesOf(entries, n - 1, r);
    }
  }

  /** Every key of a batch has a first entry, and no other key occurs. */
  lemma {:induction false} InKeysOf(entries: Entries, n: nat, key: string)
    requires n <= |entries|
    ensures key in KeysOf(entries, n) <==> exists i: nat :: i < n && entries[i].key == key
    ensures key in KeysOf(entries, n) <==> exists i: nat :: i < n && entries[i].key == key && FirstOfKey(entries, i)
  {
    if n > 0 {
      InKeysOf(entries, n - 1, key);
      if entries[n - 1].key == key && key !in KeysOf(entries, n - 1) {
        assert FirstOfKey(entries, n - 1);
      }
    }
  }

  lemma ObjectsAreDetermined(before: Objects, entries: Entries, a: Objects, b: Objects)
    requires ObjectsAgree(before, entries, |entries|, a) && ObjectsAgree(before, entries, |entries|, b)
    ensures a == b
  {
    forall r | r in a && r !in before ensures a[r] == b[r] {
      InReferencesOf(entries, |entries|, r);
      var i :| 0 <= i < |entries| && entries[i].reference == r;
    }
  }

  lemma BindingsAreDetermined(before: Bindings, entries: Entries, a: Bindings, ra: map<string, BindOutcome>,
                              b: Bindings, rb: map<string, BindOutcome>)
    requires BindingsAgree(before, entries, |entries|, a, ra) && BindingsAgree(before, entries, |entries|, b, rb)
    ensures a == b && ra == rb
  {
    forall k | k in a && k !in before ensures a[k] == b[k] {
      InKeysOf(entries, |entries|, k);
      var i: nat :| i < |entries| && entries[i].key == k && FirstOfKey(entries, i);
    }
  }

  /** The contract leaves no freedom but the named reference: two implementations that meet it agree on
      success, on both tables and on the outcome of every key. */
  lemma BatchIsDetermined(objects: Objects, bindings: Bindings, entries: Entries,
                          o1: Objects, b1: Bindings, r1: BatchResult, o2: Objects, b2: Bindings, r2: BatchResult)
    requires BatchAgrees(objects, bindings, entries, o1, b1, r1)
    requires BatchAgrees(objects, bindings, entries, o2, b2, r2)
    ensures o1 == o2 && b1 == b2
    ensures r1.Conflict? <==> r2.Conflict?
    ensures r1.Stored? ==> r1 == r2
  {
    if r1.Stored? {
      ObjectsAreDetermined(objects, entries, o1, o2);
      BindingsAreDetermined(bindings, entries, b1, r1.outcomes, b2, r2.outcomes);
    }
  }

  /** A batch conflicts exactly when it has a first clashing entry. */
  lemma {:induction false} DisagreesHasFirstClash(objects: Objects, entries: Entries) returns (i: nat)
    requires Disagrees(objects, entries)
    ensures FirstClash(objects, entries, i)
  {
    if j :|
      0 <= j < |entries| && entries[j].reference in objects && objects[entries[j].reference] != entries[j].canonical
    {
      assert ClashesAt(objects, entries, j);
    } else {
      var k, j :| 0 <= k < j < |entries| && entries[k].reference == entries[j].reference
                  && entries[k].canonical != entries[j].canonical;
      assert ClashesAt(objects, entries, j);
    }
    i := 0;
    while !ClashesAt(objects, entries, i)
      invariant i < |entries| && forall j | 0 <= j < i :: !ClashesAt(objects, entries, j)
      invariant exists j :: i <= j < |entries| && ClashesAt(objects, entries, j)
      decreases |entries| - i
    {
      i := i + 1;
    }
  }

  lemma FirstClashDisagrees(objects: Objects, entries: Entries, i: nat)
    requires FirstClash(objects, entries, i)
    ensures Disagrees(objects, entries)
  {
    if entries[i].reference in objects && objects[entries[i].reference] != entries[i].canonical {
    } else {
      var j :| 0 <= j < i && entries[j].reference == entries[i].reference
          && entries[j].canonical != entries[i].canonical;
    }
  }

  /** Bind one more entry of a batch, keeping the first winner of a key. */
  function BindEntry(bindings: Bindings, entry: BoundObjectWrite): Bindings {
    if entry.key in bindings then bindings else bindings[entry.key := entry.reference]
  }

  /** The outcome reported for an entry's key, given the bindings before it was bound. */
  function OutcomeFor(bindings: Bindings, entry: BoundObjectWrite): BindOutcome {
    if entry.key in bindings then BindOutcome(false, bindings[entry.key]) else BindOutcome(true, entry.reference)
  }

  lemma SeenKeyAgrees(before: Bindings, entries: Entries, n: nat, after: Bindings, outcomes: map<string, BindOutcome>)
    requires n < |entries| && BindingsAgree(before, entries, n, after, outcomes) && entries[n].key in outcomes
    ensures BindingsAgree(before, entries, n + 1, after, outcomes)
  {
    InKeysOf(entries, n, entries[n].key);
  }

  lemma NewKeyAgrees(before: Bindings, entries: Entries, n: nat, after: Bindings, outcomes: map<string, BindOutcome>)
    requires n < |entries| && BindingsAgree(before, entries, n, after, outcomes) && entries[n].key !in outcomes
    ensures BindingsAgree(before, entries, n + 1, BindEntry(after, entries[n]),
                          outcomes[entries[n].key := OutcomeFor(after, entries[n])])
  {
    forall i | 0 <= i < n ensures entries[i].key != entries[n].key {
      InKeysOf(entries, n, entries[n].key);
    }
  }

  /** The texts proposed by the first n entries, when none of them clashes with the others or with the stored
      objects. */
  ghost predicate Proposed(objects: Objects, entries: Entries, n: nat, proposed: Objects)
    requires n <= |entries|
  {
    && proposed.Keys == ReferencesOf(entries, n)
    && (forall i | 0 <= i < n ::
          entries[i].reference in proposed && proposed[entries[i].reference] == entries[i].canonical)
    && (forall i | 0 <= i < n :: !ClashesAt(objects, entries, i))
  }

  function Propose(proposed: Objects, entry: BoundObjectWrite): Objects {
    if entry.reference in proposed then proposed else proposed[entry.reference := entry.canonical]
  }

  lemma ProposeOne(objects: Objects, entries: Entries, n: nat, proposed: Objects)
    requires n < |entries| && Proposed(objects, entries, n, proposed)
    ensures var entry := entries[n];
            var clash := (entry.reference in proposed && proposed[entry.reference] != entry.canonical)
                         || (entry.reference in objects && objects[entry.reference] != entry.canonical);
            if clash then FirstClash(objects, entries, n)
            else Proposed(objects, entries, n + 1, Propose(proposed, entry))
  {
    InReferencesOf(entries, n, entries[n].reference);
  }

  lemma ProposedAgrees(objects: Objects, entries: Entries, proposed: Objects)
    requires Proposed(objects, entries, |entries|, proposed)
    ensures !Disagrees(objects, entries)
    ensures ObjectsAgree(objects, entries, |entries|, objects + proposed)
  {
    if Disagrees(objects, entries) {
      var i := DisagreesHasFirstClash(objects, entries);
    }
    forall r | r in objects && r in proposed ensures proposed[r] == objects[r] {
      InReferencesOf(entries, |entries|, r);
      var i :| 0 <= i < |entries| && entries[i].reference == r;
      assert !ClashesAt(objects, entries, i);
    }
  }

  // ---- Batch reads and deletes ----

  /** One row per bound requested key, with the object missing when there is none. */
  function BoundRows(objects: Objects, bindings: Bindings, keys: seq<string>): map<string, BoundObjectRow> {
    map k | k in keys && k in bindings :: BoundObjectRow(bindings[k], Lookup(objects, bindings[k]))
  }

  function BoundKeys(bindings: Bindings, keys: seq<string>): set<string> {
    set k | k in keys && k in bindings
  }

  function Without(bindings: Bindings, keys: seq<string>): Bindings {
    map k | k in bindings && k !in keys :: bindings[k]
  }

  lemma BoundRowsAppend(objects: Objects, bindings: Bindings, a: seq<string>, b: seq<string>)
    ensures BoundRows(objects, bindings, a + b) == BoundRows(objects, bindings, a) + BoundRows(objects, bindings, b)
  {}

  lemma WithoutAppends(bindings: Bindings, a: seq<string>, b: seq<string>)
    ensures Without(bindings, a + b) == Without(Without(bindings, a), b)
    ensures BoundKeys(bindings, a + b) == BoundKeys(bindings, a) + BoundKeys(Without(bindings, a), b)
  {}
}
