/** The set-valued SQL statements the database backends use, as functions on maps, and their chunked use. */
module SqlTables {
  import opened Wrappers

  /** INSERT ... ON CONFLICT DO NOTHING of the proposed rows with these keys: stored rows win. */
  function InsertMissing<K, V>(table: map<K, V>, proposed: map<K, V>, keys: seq<K>): map<K, V> {
    (map k | k in keys && k in proposed :: proposed[k]) + table
  }

  /** The keys that such an insert RETURNs. */
  function InsertedKeys<K, V>(table: map<K, V>, keys: seq<K>): set<K> {
    set k | k in keys && k !in table
  }

  /** SELECT ... WHERE key = ANY(keys). */
  function Fetch<K, V>(table: map<K, V>, keys: seq<K>): map<K, V> {
    map k | k in keys && k in table :: table[k]
  }

  lemma InsertMissingAppends<K, V>(table: map<K, V>, proposed: map<K, V>, a: seq<K>, b: seq<K>)
    ensures InsertMissing(InsertMissing(table, proposed, a), proposed, b) == InsertMissing(table, proposed, a + b)
  {}

  lemma FetchAppends<K, V>(table: map<K, V>, a: seq<K>, b: seq<K>)
    ensures Fetch(table, a) + Fetch(table, b) == Fetch(table, a + b)
  {}

  /** With distinct keys, what the chunks return adds up to what one insert would return. */
  lemma InsertedKeysAppend<K, V>(table: map<K, V>, proposed: map<K, V>, a: seq<K>, b: seq<K>)
    requires forall k | k in a :: k !in b
    ensures InsertedKeys(table, a) + InsertedKeys(InsertMissing(table, proposed, a), b) == InsertedKeys(table, a + b)
  {}

  /** The end of the chunk that starts at start. */
  function ChunkEnd(length: nat, start: nat, size: nat): (end: nat)
    requires start < length && size > 0
    ensures start < end <= length && end - start <= size
  {
    if start + size < length then start + size else length
  }

  lemma ChunkSplits<K>(keys: seq<K>, start: nat, end: nat)
    requires start <= end <= |keys|
    ensures keys[..end] == keys[..start] + keys[start..end]
    ensures NoDuplicates(keys) ==> forall k | k in keys[..start] :: k !in keys[start..end]
  {}
}
