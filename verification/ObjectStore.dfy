/** The content-addressed store over any backend (src/dr_store/object_store.py), and its histories.
    Canonical encoding and hashing are function values; nothing assumes that hashes do not collide. */
module ObjectStore {
  import opened Wrappers
  import opened ObjectReferences
  import opened StorageContract

  /** validate is strict-JSON validation, encode the canonical encoder, decode parsing followed by validation. */
  datatype Encoding<!R> = Encoding(
    validate: R -> Option<R>, encode: R -> Option<string>, decode: string -> Option<R>, sha256: string -> string)

  /** Decoding inverts encoding of a validated record, and hashes look like hashes. */
  ghost predicate RoundTrips<R(!new)>(enc: Encoding<R>) {
    && (forall record: R, valid: R :: enc.validate(record) == Some(valid) && enc.encode(valid).Some? ==>
          enc.decode(enc.encode(valid).value) == Some(valid))
    && (forall text: string :: IsContentHash(enc.sha256(text)))
  }

  datatype Tables = Tables(objects: Objects, bindings: Bindings)

  datatype StoreError =
    | InvalidArgument
    | InvalidStoredReference
    | ObjectConflict(reference: ObjectReference)
    | ObjectNotFound(reference: ObjectReference)
    | SchemaMismatch(expected: string, actual: string)
    | InvalidJson
    | NonCanonicalProfile
    | HashMismatch(actual: string)
    | NonCanonicalForm
    | BindingConflict(existing: ObjectReference)

  datatype PutStatus = Inserted | Idempotent
  datatype BindStatus = Bound | SameBinding

  /** The canonical text of a record, when it is one strict JSON value in the canonical profile. */
  function Prepare<R>(enc: Encoding<R>, record: R): Option<string> {
    match enc.validate(record)
    case None => None
    case Some(valid) => enc.encode(valid)
  }

  /** What a put tells its caller, given what the backend's put came to. */
  function PutFromPrepared(reference: ObjectReference, text: string, outcome: PutOutcome):
    Result<(ObjectReference, PutStatus), StoreError>
  {
    if outcome.inserted then Success((reference, Inserted))
    else if outcome.storedCanonical == text then Success((reference, Idempotent))
    else Failure(ObjectConflict(reference))
  }

  /** put: the arguments are checked before the backend is asked. */
  ghost predicate PutStep<R>(enc: Encoding<R>, before: Tables, schema: string, record: R, after: Tables,
                             result: Result<(ObjectReference, PutStatus), StoreError>)
  {
    if !IsReferenceSchema(schema) || Prepare(enc, record).None? then
      after == before && result == Failure(InvalidArgument)
    else
      var text := Prepare(enc, record).value;
      var reference := ObjectReference(schema, enc.sha256(text));
      && after.bindings == before.bindings
      && exists outcome ::
           && PutAgrees(before.objects, reference, text, after.objects, outcome)
           && result == PutFromPrepared(reference, text, outcome)
  }

  /** The checks on stored text before it is returned as a record. */
  function Verify<R>(enc: Encoding<R>, reference: ObjectReference, storedSchema: string, canonical: string):
      Result<R, StoreError> {
    if storedSchema != reference.schema then Failure(SchemaMismatch(reference.schema, storedSchema))
    else
      match enc.decode(canonical)
      case None => Failure(InvalidJson)
      case Some(record) =>
        match enc.encode(record)
        case None => Failure(NonCanonicalProfile)
        case Some(verified) =>
          var actual := enc.sha256(verified);
          if actual != reference.contentHash then Failure(HashMismatch(actual))
          else if verified != canonical then Failure(NonCanonicalForm)
          else Success(record)
  }

  /** The answers get may give: the exact object verified, a schema mismatch with some object of the same
      hash, or not found. Which other object is named is the backend's choice. */
  ghost predicate GetAnswers<R>(enc: Encoding<R>, t: Tables, reference: ObjectReference,
      answer: Result<R, StoreError>) {
    if reference in t.objects then
      answer == Verify(enc, reference, reference.schema, t.objects[reference])
    else if exists other :: other in t.objects && other.contentHash == reference.contentHash then
      exists other :: other in t.objects && other.contentHash == reference.contentHash
                      && answer == Verify(enc, reference, other.schema, t.objects[other])
    else
      answer == Failure(ObjectNotFound(reference))
  }

  /** get: what a backend row amounts to for the caller. */
  function AnswerFor<R>(enc: Encoding<R>, reference: ObjectReference, row: Option<(string, string)>):
      Result<R, StoreError> {
    match row
    case None => Failure(ObjectNotFound(reference))
    case Some((schema, canonical)) => Verify(enc, reference, schema, canonical)
  }

  /** Every row a backend may give leads to an allowed answer. */
  lemma BackendRowGivesAnswer<R>(enc: Encoding<R>, t: Tables, reference: ObjectReference, row: Option<(string, string)>)
    requires ExactOrSameHash(t.objects, reference, row)
    ensures GetAnswers(enc, t, reference, AnswerFor(enc, reference, row))
  {}

  /** What a bind tells its caller, given what the backend's bind came to. */
  function BindFromOutcome(reference: ObjectReference, outcome: BindOutcome): Result<BindStatus, StoreError> {
    if outcome.bound then Success(Bound)
    else if outcome.existing == reference then Success(SameBinding)
    else Failure(BindingConflict(outcome.existing))
  }

  ghost predicate BindStep(before: Tables, key: string, reference: ObjectReference, after: Tables,
                           result: Result<BindStatus, StoreError>)
  {
    if !IsBindingKey(key) then
      after == before && result == Failure(InvalidArgument)
    else
      && after.objects == before.objects
      && exists outcome ::
           && BindAgrees(before.bindings, key, reference, after.bindings, outcome)
           && result == BindFromOutcome(reference, outcome)
  }

  predicate AllBindingKeys(keys: seq<string>) {
    forall k | k in keys :: IsBindingKey(k)
  }

  // ---- Histories ----

  datatype StoreOp<R> =
    | Put(schema: string, record: R)
    | Bind(key: string, reference: ObjectReference)
    | PutBatch(entries: Entries)
    | Evict(keys: seq<string>)

  /** One operation, on any backend that meets the storage contract. A batch or an eviction with an invalid key
      is refused before the backend is asked. */
  ghost predicate OpStep<R>(enc: Encoding<R>, before: Tables, op: StoreOp<R>, after: Tables) {
    match op
    case Put(schema, record) => exists result :: PutStep(enc, before, schema, record, after, result)
    case Bind(key, reference) => exists result :: BindStep(before, key, reference, after, result)
    case PutBatch(entries) =>
      if exists e :: e in entries && !IsBindingKey(e.key) then after == before
      else exists result :: BatchAgrees(before.objects, before.bindings, entries, after.objects, after.bindings, result)
    case Evict(keys) =>
      after == if AllBindingKeys(keys) then Tables(before.objects, Without(before.bindings, keys)) else before
  }

  /** states[k] are the tables after the first k operations. */
  ghost predicate History<R>(enc: Encoding<R>, ops: seq<StoreOp<R>>, states: seq<Tables>) {
    && |states| == |ops| + 1
    && forall k | 0 <= k < |ops| :: OpStep(enc, states[k], ops[k], states[k + 1])
  }

  /** Objects are append-only: whatever runs later, a stored text stays as it is. */
  lemma {:induction false} ObjectsPersist<R>(enc: Encoding<R>, ops: seq<StoreOp<R>>, states: seq<Tables>,
                                             i: nat, j: nat, reference: ObjectReference)
    requires History(enc, ops, states) && i <= j <= |ops|
    requires reference in states[i].objects
    ensures reference in states[j].objects && states[j].objects[reference] == states[i].objects[reference]
  {
    if i < j {
      ObjectsPersist(enc, ops, states, i, j - 1, reference);
      assert OpStep(enc, states[j - 1], ops[j - 1], states[j - 1 + 1]);
    }
  }

  lemma VerifyAcceptsPrepared<R(!new)>(enc: Encoding<R>, schema: string, record: R)
    requires RoundTrips(enc) && Prepare(enc, record).Some?
    ensures var text := Prepare(enc, record).value;
            Verify(enc, ObjectReference(schema, enc.sha256(text)), schema, text) == Success(enc.validate(record).value)
  {}

  /** PUT THEN GET: once put has returned a reference, get on it gives exactly the validated record after any
      later puts, binds, batch puts and evictions, from any initial tables and for any hash function. */
  lemma PutThenGet<R(!new)>(enc: Encoding<R>, ops: seq<StoreOp<R>>, states: seq<Tables>, i: nat, j: nat,
                            reference: ObjectReference, status: PutStatus, answer: Result<R, StoreError>)
    requires RoundTrips(enc) && History(enc, ops, states) && i < j <= |ops|
    requires ops[i].Put? && PutStep(enc, states[i], ops[i].schema, ops[i].record, states[i + 1],
             Success((reference, status)))
    requires GetAnswers(enc, states[j], reference, answer)
    ensures answer == Success(enc.validate(ops[i].record).value)
  {
    assert states[i + 1].objects[reference] == Prepare(enc, ops[i].record).value;
    ObjectsPersist(enc, ops, states, i + 1, j, reference);
    VerifyAcceptsPrepared(enc, ops[i].schema, ops[i].record);
  }

  /** A put through any backend conflicts exactly when another text is stored under its schema and hash, and then
      changes nothing; otherwise its text is stored afterwards, and it tells whether it was already. */
  lemma PutConflictsExactlyOnOtherText<R>(enc: Encoding<R>, t: Tables, schema: string, record: R, after: Tables,
                                          result: Result<(ObjectReference, PutStatus), StoreError>)
    requires IsReferenceSchema(schema) && Prepare(enc, record).Some?
    requires PutStep(enc, t, schema, record, after, result)
    ensures var text := Prepare(enc, record).value;
            var reference := ObjectReference(schema, enc.sha256(text));
            && after.bindings == t.bindings
            && (result.Failure? <==> reference in t.objects && t.objects[reference] != text)
            && (result.Failure? ==> after == t && result.error == ObjectConflict(reference))
            && (result.Success? ==>
                  && after.objects == t.objects[reference := text]
                  && result.value == (reference, if reference in t.objects then Idempotent else Inserted))
  {}

  /** A bind through any backend conflicts exactly when the key is bound to another reference, and then changes
      nothing; otherwise the key is bound to the reference afterwards, and it tells whether it was already. */
  lemma BindConflictsExactlyOnOtherReference(t: Tables, key: string, reference: ObjectReference, after: Tables,
                                             result: Result<BindStatus, StoreError>)
    requires IsBindingKey(key) && BindStep(t, key, reference, after, result)
    ensures after.objects == t.objects
    ensures result.Failure? <==> key in t.bindings && t.bindings[key] != reference
    ensures result.Failure? ==> after == t && result.error == BindingConflict(t.bindings[key])
    ensures result.Success? ==>
              && after.bindings == t.bindings[key := reference]
              && result.value == if key in t.bindings then SameBinding else Bound
  {}

  /** Get returns a record only if its canonical encoding is the stored text and hashes to the reference. */
  lemma {:induction false} GetReturnsOnlyVerified<R>(enc: Encoding<R>, t: Tables, reference: ObjectReference,
      answer: Result<R, StoreError>)
    requires GetAnswers(enc, t, reference, answer) && answer.Success?
    ensures reference in t.objects && enc.encode(answer.value) == Some(t.objects[reference])
    ensures enc.sha256(t.objects[reference]) == reference.contentHash
  {
    if reference !in t.objects {
      var other :| other in t.objects && other.contentHash == reference.contentHash
                   && answer == Verify(enc, reference, other.schema, t.objects[other]);
    }
  }

  /** A bound key changes only by passing through an eviction that names it. */
  lemma {:induction false} BoundUntilEvicted<R>(enc: Encoding<R>, ops: seq<StoreOp<R>>, states: seq<Tables>,
                                                i: nat, j: nat, key: string)
    requires History(enc, ops, states) && i <= j <= |ops|
    requires key in states[i].bindings
    requires forall k | i <= k < j && ops[k].Evict? :: key !in ops[k].keys
    ensures key in states[j].bindings && states[j].bindings[key] == states[i].bindings[key]
  {
    if i < j {
      BoundUntilEvicted(enc, ops, states, i, j - 1, key);
      assert OpStep(enc, states[j - 1], ops[j - 1], states[j - 1 + 1]);
    }
  }

  /** An eviction leaves every object retrievable, and running it again finds every key absent. */
  lemma EvictionRemovesResolvabilityOnly<R>(enc: Encoding<R>, t: Tables, keys: seq<string>, after: Tables)
    requires AllBindingKeys(keys) && OpStep(enc, t, Evict(keys), after)
    ensures after.objects == t.objects
    ensures BoundKeys(after.bindings, keys) == {} && Without(after.bindings, keys) == after.bindings
    ensures forall k | k in t.bindings && k !in keys :: k in after.bindings && after.bindings[k] == t.bindings[k]
  {}

  // ---- Reading many keys ----

  /** What reading one key gives: unbound, a verified record, or the error that makes get_many raise. */
  function ReadKey<R>(enc: Encoding<R>, rows: map<string, BoundObjectRow>, key: string, schema: string):
      Result<Option<R>, StoreError> {
    if key !in rows then Success(None)
    else
      var reference := rows[key].binding;
      if !reference.Valid() then Failure(InvalidStoredReference)
      else if reference.schema != schema then Failure(SchemaMismatch(schema, reference.schema))
      else if rows[key].canonical.None? then Failure(ObjectNotFound(reference))
      else
        match Verify(enc, reference, reference.schema, rows[key].canonical.value)
        case Success(record) => Success(Some(record))
        case Failure(error) => Failure(error)
  }

  ghost predicate AllRead<R>(enc: Encoding<R>, rows: map<string, BoundObjectRow>, keys: seq<string>, schema: string,
                             results: map<string, Option<R>>)
  {
    && (forall k :: k in results <==> k in keys)
    && (forall k | k in results :: ReadKey(enc, rows, k, schema) == Success(results[k]))
  }

  /** get_many: an argument error, or one hit or none per distinct key, or the first key's error. */
  method GetMany<R>(enc: Encoding<R>, t: Tables, keys: seq<string>, schema: string)
    returns (answer: Result<map<string, Option<R>>, StoreError>)
    ensures !IsReferenceSchema(schema) || !AllBindingKeys(keys) ==> answer == Failure(InvalidArgument)
    ensures answer.Success? ==>
              AllRead(enc, BoundRows(t.objects, t.bindings, keys), keys, schema, answer.value)
    ensures IsReferenceSchema(schema) && AllBindingKeys(keys) && answer.Failure? ==>
              exists i :: 0 <= i < |keys|
                && ReadKey(enc, BoundRows(t.objects, t.bindings, keys), keys[i], schema) == Failure(answer.error)
                && forall j | 0 <= j < i ::
                   ReadKey(enc, BoundRows(t.objects, t.bindings, keys), keys[j], schema).Success?
  {
    if !IsReferenceSchema(schema) {
      return Failure(InvalidArgument);
    }
    var distinct := Distinct(keys);
    if exists k | k in distinct :: !IsBindingKey(k) {
      return Failure(InvalidArgument);
    }
    var rows := BoundRows(t.objects, t.bindings, distinct);
    assert rows == BoundRows(t.objects, t.bindings, keys);
    var results: map<string, Option<R>> := map[];
    for d := 0 to |distinct|
      invariant AllRead(enc, rows, distinct[..d], schema, results)
    {
      assert distinct[..d + 1] == distinct[..d] + [distinct[d]];
      match ReadKey(enc, rows, distinct[d], schema) {
        case Failure(error) =>
          FirstFailure(enc, rows, keys, d, schema, results);
          return Failure(error);
        case Success(hit) => results := results[distinct[d] := hit];
      }
    }
    assert distinct[..|distinct|] == distinct;
    return Success(results);
  }

  /** The first distinct key that fails is the first key that fails. */
  lemma FirstFailure<R>(enc: Encoding<R>, rows: map<string, BoundObjectRow>, keys: seq<string>, d: nat, schema: string,
                        results: map<string, Option<R>>)
    requires d < |Distinct(keys)| && AllRead(enc, rows, Distinct(keys)[..d], schema, results)
    requires ReadKey(enc, rows, Distinct(keys)[d], schema).Failure?
    ensures exists i :: 0 <= i < |keys| && keys[i] == Distinct(keys)[d]
                        && forall j | 0 <= j < i :: ReadKey(enc, rows, keys[j], schema).Success?
  {
    DistinctKeepsOrder(keys, d);
    var i: nat :| i < |keys| && keys[i] == Distinct(keys)[d] && forall j | 0 <= j < i :: keys[j] in Distinct(keys)[..d];
    forall j | 0 <= j < i ensures ReadKey(enc, rows, keys[j], schema).Success? {
      assert keys[j] in results;
    }
  }

  /** A batch put makes every key that it binds first readable with the record it was given. */
  lemma {:induction false} BatchBindsReadable<R(!new)>(enc: Encoding<R>, t: Tables, entries: Entries, after: Tables,
                                                      result: BatchResult, i: nat, record: R)
    requires RoundTrips(enc)
    requires BatchAgrees(t.objects, t.bindings, entries, after.objects, after.bindings, result) && result.Stored?
    requires i < |entries| && FirstOfKey(entries, i) && entries[i].key !in t.bindings
    requires Prepare(enc, record) == Some(entries[i].canonical)
    requires IsReferenceSchema(entries[i].reference.schema)
    requires entries[i].reference.contentHash == enc.sha256(entries[i].canonical)
    ensures ReadKey(enc, BoundRows(after.objects, after.bindings, [entries[i].key]), entries[i].key,
                    entries[i].reference.schema) == Success(Some(enc.validate(record).value))
  {
    var entry := entries[i];
    VerifyAcceptsPrepared(enc, entry.reference.schema, record);
    assert after.bindings[entry.key] == entry.reference;
    assert after.objects[entry.reference] == entry.canonical;
    assert entry.key in [entry.key];
  }

  /** READABLE UNTIL EVICTED: a key that reads a record keeps reading it, through any later operations by
      anyone, until an eviction names the key. */
  lemma ReadableUntilEvicted<R>(enc: Encoding<R>, ops: seq<StoreOp<R>>, states: seq<Tables>, i: nat, j: nat,
                                key: string, schema: string)
    requires History(enc, ops, states) && i <= j <= |ops|
    requires forall k | i <= k < j && ops[k].Evict? :: key !in ops[k].keys
    requires ReadKey(enc, BoundRows(states[i].objects, states[i].bindings, [key]), key, schema).Success?
    requires ReadKey(enc, BoundRows(states[i].objects, states[i].bindings, [key]), key, schema).value.Some?
    ensures ReadKey(enc, BoundRows(states[j].objects, states[j].bindings, [key]), key, schema)
            == ReadKey(enc, BoundRows(states[i].objects, states[i].bindings, [key]), key, schema)
  {
    BoundUntilEvicted(enc, ops, states, i, j, key);
    ObjectsPersist(enc, ops, states, i, j, states[i].bindings[key]);
    assert key in [key];
  }
}
