/** Python's order on names, and sorting by it. */
module Names {
  /** Code point order, as sorted() compares strings. */
  predicate Before(a: string, b: string) {
    b != "" && (a == "" || a[0] < b[0] || (a[0] == b[0] && Before(a[1..], b[1..])))
  }

  lemma {:induction false} BeforeIsStrictTotal(a: string, b: string)
    ensures !(Before(a, b) && Before(b, a))
    ensures a != b ==> Before(a, b) || Before(b, a)
    ensures a == b ==> !Before(a, b)
  {
    if a != "" && b != "" && a[0] == b[0] {
      BeforeIsStrictTotal(a[1..], b[1..]);
      assert a == [a[0]] + a[1..] && b == [b[0]] + b[1..];
    }
  }

  lemma {:induction false} BeforeIsTransitive(a: string, b: string, c: string)
    requires Before(a, b) && Before(b, c)
    ensures Before(a, c)
  {
    if a != "" && a[0] == b[0] == c[0] {
      BeforeIsTransitive(a[1..], b[1..], c[1..]);
    }
  }

  ghost predicate Increasing(names: seq<string>) {
    forall i, j | 0 <= i < j < |names| :: Before(names[i], names[j])
  }

  predicate Unique(names: seq<string>) {
    forall i, j | 0 <= i < j < |names| :: names[i] != names[j]
  }

  function Insert(name: string, names: seq<string>): seq<string> {
    if names == [] then [name]
    else if Before(names[0], name) then [names[0]] + Insert(name, names[1..])
    else [name] + names
  }

  /** sorted(names) */
  function Sorted(names: seq<string>): seq<string> {
    if names == [] then [] else Insert(names[0], Sorted(names[1..]))
  }

  lemma {:induction false} InsertKeepsNames(name: string, names: seq<string>)
    ensures multiset(Insert(name, names)) == multiset{name} + multiset(names)
    ensures |Insert(name, names)| == |names| + 1
  {
    if names != [] {
      assert names == [names[0]] + names[1..];
      InsertKeepsNames(name, names[1..]);
    }
  }

  lemma {:induction false} SortedKeepsNames(names: seq<string>)
    ensures multiset(Sorted(names)) == multiset(names)
    ensures forall n :: n in Sorted(names) <==> n in names
  {
    if names != [] {
      assert names == [names[0]] + names[1..];
      SortedKeepsNames(names[1..]);
      InsertKeepsNames(names[0], Sorted(names[1..]));
    }
    assert forall n :: n in Sorted(names) <==> n in multiset(Sorted(names));
    assert forall n :: n in names <==> n in multiset(names);
  }

  lemma {:induction false} InsertKeepsIncreasing(name: string, names: seq<string>)
    requires Increasing(names) && name !in names
    ensures Increasing(Insert(name, names))
  {
    if names != [] {
      BeforeIsStrictTotal(names[0], name);
      assert names == [names[0]] + names[1..];
      if Before(names[0], name) {
        InsertKeepsIncreasing(name, names[1..]);
        InsertKeepsNames(name, names[1..]);
        var rest := Insert(name, names[1..]);
        forall j | 0 <= j < |rest| ensures Before(names[0], rest[j]) {
          assert rest[j] in multiset(rest);
          assert rest[j] == name || rest[j] in names[1..];
        }
      } else {
        forall j | 0 <= j < |names| ensures Before(name, names[j]) {
          if j > 0 {
            BeforeIsTransitive(name, names[0], names[j]);
          }
        }
      }
    }
  }

  /** Sorting distinct names puts them in strictly increasing order. */
  lemma {:induction false} SortedIncreases(names: seq<string>)
    requires Unique(names)
    ensures Increasing(Sorted(names))
  {
    if names != [] {
      SortedIncreases(names[1..]);
      SortedKeepsNames(names[1..]);
      assert names[0] !in names[1..];
      InsertKeepsIncreasing(names[0], Sorted(names[1..]));
    }
  }

  /** Increasing names are already sorted and distinct. */
  lemma {:induction false} IncreasingIsSorted(names: seq<string>)
    requires Increasing(names)
    ensures Sorted(names) == names && Unique(names)
  {
    if names != [] {
      IncreasingIsSorted(names[1..]);
      if |names| > 1 {
        BeforeIsStrictTotal(names[0], names[1]);
        assert names[1..][0] == names[1];
      }
      assert names == [names[0]] + names[1..];
    }
    forall i, j | 0 <= i < j < |names| ensures names[i] != names[j] {
      BeforeIsStrictTotal(names[i], names[j]);
    }
  }
}
