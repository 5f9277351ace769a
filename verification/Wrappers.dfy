/** Option and Result values used by every other module. */
module Wrappers {
  datatype Option<+T> = None | Some(value: T)

  datatype Result<+T, +E> = Success(value: T) | Failure(error: E)

  /** The dictionary lookup that answers "absent" instead of failing. */
  function Lookup<K, V>(m: map<K, V>, k: K): Option<V> {
    if k in m then Some(m[k]) else None
  }

  predicate NoDuplicates<K(==)>(keys: seq<K>) {
    forall i, j | 0 <= i < j < |keys| :: keys[i] != keys[j]
  }

  /** Keep the first occurrence of every key, as dict.fromkeys does. */
  function Distinct<K(==,!new)>(keys: seq<K>): (distinct: seq<K>)
    ensures NoDuplicates(distinct)
    ensures forall k :: k in distinct <==> k in keys
  {
    if keys == [] then []
    else
      var last := keys[|keys| - 1];
      var before := Distinct(keys[..|keys| - 1]);
      assert keys == keys[..|keys| - 1] + [last];
      if last in before then before else before + [last]
  }

  /** Some element introduces distinct[d] after all that come before it in distinct. */
  ghost predicate IntroducedInOrder<K>(keys: seq<K>, distinct: seq<K>, d: nat)
    requires d < |distinct|
  {
    exists i: nat :: i < |keys| && keys[i] == distinct[d] && forall j | 0 <= j < i :: keys[j] in distinct[..d]
  }

  /** The distinct keys come in the order of their first occurrences. */
  lemma {:induction false} DistinctKeepsOrder<K(!new)>(keys: seq<K>, d: nat)
    requires d < |Distinct(keys)|
    ensures IntroducedInOrder(keys, Distinct(keys), d)
  {
    var n, distinct := |keys| - 1, Distinct(keys);
    var before := Distinct(keys[..n]);
    if d < |before| {
      DistinctKeepsOrder(keys[..n], d);
      var i: nat :| i < n && keys[..n][i] == before[d] && forall j | 0 <= j < i :: keys[..n][j] in before[..d];
      assert distinct[..d] == before[..d];
      assert forall j | 0 <= j < i :: keys[j] == keys[..n][j];
      assert keys[i] == distinct[d];
    } else {
      assert distinct[..d] == before;
      forall j | 0 <= j < n ensures keys[j] in distinct[..d] {
        assert keys[j] == keys[..n][j];
      }
      assert keys[n] == distinct[d];
    }
  }
}
