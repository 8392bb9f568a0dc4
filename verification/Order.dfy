/** String order and sorting: Go compares strings by bytes, which for UTF-8 is by code points. */
module Order {

  predicate Less(a: string, b: string) {
    if a == [] then b != []
    else if b == [] then false
    else if a[0] != b[0] then a[0] < b[0]
    else Less(a[1..], b[1..])
  }

  lemma {:induction false} LessIsTotal(a: string, b: string)
    ensures Less(a, b) || a == b || Less(b, a)
  {
    if a != [] && b != [] && a[0] == b[0] {
      LessIsTotal(a[1..], b[1..]);
      assert a == [a[0]] + a[1..] && b == [b[0]] + b[1..];
    }
  }

  lemma {:induction false} LessIsTransitive(a: string, b: string, c: string)
    requires Less(a, b) && Less(b, c)
    ensures Less(a, c)
  {
    if a != [] && b != [] && c != [] && a[0] == b[0] && b[0] == c[0] {
      LessIsTransitive(a[1..], b[1..], c[1..]);
    }
  }

  lemma {:induction false} LessIsIrreflexive(a: string)
    ensures !Less(a, a)
  {
    if a != [] {
      LessIsIrreflexive(a[1..]);
    }
  }

  // No two elements share a key.
  ghost predicate DistinctBy<T, K>(xs: seq<T>, key: T -> K) {
    forall i, j :: 0 <= i < j < |xs| ==> key(xs[i]) != key(xs[j])
  }

  function Insert<T>(x: T, xs: seq<T>, less: (T, T) -> bool): seq<T> {
    if xs == [] || less(x, xs[0]) then [x] + xs else [xs[0]] + Insert(x, xs[1..], less)
  }

  // sort.Slice
  function Sort<T>(xs: seq<T>, less: (T, T) -> bool): seq<T> {
    if xs == [] then [] else Insert(xs[0], Sort(xs[1..], less), less)
  }

  lemma DistinctTail<T, K>(xs: seq<T>, key: T -> K)
    requires DistinctBy(xs, key) && xs != []
    ensures DistinctBy(xs[1..], key)
    ensures forall y :: y in xs[1..] ==> key(y) != key(xs[0])
  {
    assert forall i :: 0 <= i < |xs| - 1 ==> xs[1..][i] == xs[i + 1];
  }

  lemma DistinctCons<T, K>(x: T, xs: seq<T>, key: T -> K)
    requires DistinctBy(xs, key) && forall y :: y in xs ==> key(y) != key(x)
    ensures DistinctBy([x] + xs, key)
  {
    var all := [x] + xs;
    forall i, j | 0 <= i < j < |all|
      ensures key(all[i]) != key(all[j])
    {
      assert all[j] == xs[j - 1] && all[j] in xs;
      assert i > 0 ==> all[i] == xs[i - 1];
    }
  }

  lemma DistinctSnoc<T, K>(xs: seq<T>, x: T, key: T -> K)
    requires DistinctBy(xs, key) && forall y :: y in xs ==> key(y) != key(x)
    ensures DistinctBy(xs + [x], key)
  {
    var all := xs + [x];
    forall i, j | 0 <= i < j < |all|
      ensures key(all[i]) != key(all[j])
    {
      assert all[i] in xs;
    }
  }

  lemma DistinctRemove<T, K>(xs: seq<T>, i: nat, key: T -> K)
    requires DistinctBy(xs, key) && i < |xs|
    ensures DistinctBy(xs[..i] + xs[i + 1..], key)
    ensures forall y :: y in xs[..i] + xs[i + 1..] <==> y in xs && key(y) != key(xs[i])
  {
    var rest := xs[..i] + xs[i + 1..];
    assert forall k :: 0 <= k < |rest| ==> rest[k] == if k < i then xs[k] else xs[k + 1];
    forall y: T
      ensures y in rest <==> y in xs && key(y) != key(xs[i])
    {
      if y in xs && key(y) != key(xs[i]) {
        var k :| 0 <= k < |xs| && xs[k] == y;
        assert rest[if k < i then k else k - 1] == y;
      }
    }
  }

  // Two elements of a list that share a distinct key are the same element.
  lemma SameKeySame<T, K>(xs: seq<T>, a: T, b: T, key: T -> K)
    requires DistinctBy(xs, key) && a in xs && b in xs && key(a) == key(b)
    ensures a == b
  {
    var i, j :| 0 <= i < |xs| && 0 <= j < |xs| && xs[i] == a && xs[j] == b;
    assert key(xs[i]) == key(xs[j]);
  }

  lemma {:induction false} InsertMembers<T>(x: T, xs: seq<T>, less: (T, T) -> bool, y: T)
    ensures y in Insert(x, xs, less) <==> y == x || y in xs
  {
    if xs != [] && !less(x, xs[0]) {
      InsertMembers(x, xs[1..], less, y);
      assert xs == [xs[0]] + xs[1..];
    }
  }

  lemma {:induction false} InsertDistinct<T, K>(x: T, xs: seq<T>, less: (T, T) -> bool, key: T -> K)
    requires DistinctBy(xs, key) && forall y :: y in xs ==> key(y) != key(x)
    ensures DistinctBy(Insert(x, xs, less), key)
  {
    if xs == [] || less(x, xs[0]) {
      DistinctCons(x, xs, key);
    } else {
      var rest := Insert(x, xs[1..], less);
      DistinctTail(xs, key);
      InsertDistinct(x, xs[1..], less, key);
      forall y | y in rest
        ensures key(y) != key(xs[0])
      {
        InsertMembers(x, xs[1..], less, y);
      }
      DistinctCons(xs[0], rest, key);
    }
  }

  lemma {:induction false} SortMembers<T>(xs: seq<T>, less: (T, T) -> bool, y: T)
    ensures y in Sort(xs, less) <==> y in xs
  {
    if xs != [] {
      SortMembers(xs[1..], less, y);
      InsertMembers(xs[0], Sort(xs[1..], less), less, y);
      assert xs == [xs[0]] + xs[1..];
    }
  }

  lemma {:induction false} SortDistinct<T, K>(xs: seq<T>, less: (T, T) -> bool, key: T -> K)
    requires DistinctBy(xs, key)
    ensures DistinctBy(Sort(xs, less), key)
  {
    if xs != [] {
      var rest := Sort(xs[1..], less);
      DistinctTail(xs, key);
      SortDistinct(xs[1..], less, key);
      forall y | y in rest
        ensures key(y) != key(xs[0])
      {
        SortMembers(xs[1..], less, y);
      }
      InsertDistinct(xs[0], rest, less, key);
    }
  }

  // Sorting keeps the elements and the distinctness of any key.
  lemma SortKeeps<T, K>(xs: seq<T>, less: (T, T) -> bool, key: T -> K)
    requires DistinctBy(xs, key)
    ensures DistinctBy(Sort(xs, less), key)
    ensures forall y :: y in Sort(xs, less) <==> y in xs
  {
    SortDistinct(xs, less, key);
    forall y: T
      ensures y in Sort(xs, less) <==> y in xs
    {
      SortMembers(xs, less, y);
    }
  }

  lemma {:induction false} InsertMultiset<T>(x: T, xs: seq<T>, less: (T, T) -> bool)
    ensures multiset(Insert(x, xs, less)) == multiset(xs) + multiset{x}
  {
    if xs != [] && !less(x, xs[0]) {
      InsertMultiset(x, xs[1..], less);
      assert xs == [xs[0]] + xs[1..];
    }
  }

  // Sorting is a permutation.
  lemma {:induction false} SortMultiset<T>(xs: seq<T>, less: (T, T) -> bool)
    ensures multiset(Sort(xs, less)) == multiset(xs)
  {
    if xs != [] {
      SortMultiset(xs[1..], less);
      InsertMultiset(xs[0], Sort(xs[1..], less), less);
      assert xs == [xs[0]] + xs[1..];
    }
  }

  lemma {:induction false} InsertedWasDistinct<T, K>(x: T, xs: seq<T>, less: (T, T) -> bool, key: T -> K)
    requires DistinctBy(Insert(x, xs, less), key)
    ensures DistinctBy(xs, key) && forall y :: y in xs ==> key(y) != key(x)
  {
    if xs == [] {
    } else if less(x, xs[0]) {
      var all := [x] + xs;
      DistinctTail(all, key);
      assert all[1..] == xs;
    } else {
      var all := [xs[0]] + Insert(x, xs[1..], less);
      DistinctTail(all, key);
      assert all[1..] == Insert(x, xs[1..], less);
      InsertedWasDistinct(x, xs[1..], less, key);
      forall y: T
        ensures y in Insert(x, xs[1..], less) <==> y == x || y in xs[1..]
      {
        InsertMembers(x, xs[1..], less, y);
      }
      DistinctCons(xs[0], xs[1..], key);
      assert xs == [xs[0]] + xs[1..];
    }
  }

  // A key that is distinct after sorting was distinct before.
  lemma {:induction false} SortedWasDistinct<T, K>(xs: seq<T>, less: (T, T) -> bool, key: T -> K)
    requires DistinctBy(Sort(xs, less), key)
    ensures DistinctBy(xs, key)
  {
    if xs != [] {
      var rest := Sort(xs[1..], less);
      InsertedWasDistinct(xs[0], rest, less, key);
      SortedWasDistinct(xs[1..], less, key);
      forall y | y in xs[1..]
        ensures key(y) != key(xs[0])
      {
        SortMembers(xs[1..], less, y);
      }
      DistinctCons(xs[0], xs[1..], key);
      assert xs == [xs[0]] + xs[1..];
    }
  }

  // ---- Sorted strings ----

  ghost predicate Ascending(xs: seq<string>) {
    forall i, j :: 0 <= i < j < |xs| ==> !Less(xs[j], xs[i])
  }

  lemma {:induction false} InsertAscending(x: string, xs: seq<string>)
    requires Ascending(xs)
    ensures Ascending(Insert(x, xs, Less))
    ensures forall y :: y in Insert(x, xs, Less) <==> y == x || y in xs
  {
    if xs == [] {
    } else if Less(x, xs[0]) {
      forall j | 0 <= j < |xs|
        ensures !Less(xs[j], x)
      {
        if Less(xs[j], x) {
          LessIsTransitive(xs[j], x, xs[0]);
          LessIsIrreflexive(xs[0]);
        }
      }
    } else {
      InsertAscending(x, xs[1..]);
      var rest := Insert(x, xs[1..], Less);
      assert forall j :: 0 <= j < |rest| ==> rest[j] == x || rest[j] in xs[1..];
      assert xs == [xs[0]] + xs[1..];
    }
  }

  lemma {:induction false} SortAscending(xs: seq<string>)
    ensures Ascending(Sort(xs, Less))
    ensures forall y :: y in Sort(xs, Less) <==> y in xs
  {
    if xs != [] {
      SortAscending(xs[1..]);
      InsertAscending(xs[0], Sort(xs[1..], Less));
      assert xs == [xs[0]] + xs[1..];
    }
  }

  predicate Increasing(xs: seq<string>) {
    forall i, j :: 0 <= i < j < |xs| ==> Less(xs[i], xs[j])
  }

  function Itself(x: string): string {
    x
  }

  // Distinct strings sort into a strictly increasing list.
  lemma SortIncreasing(xs: seq<string>)
    requires DistinctBy(xs, Itself)
    ensures Increasing(Sort(xs, Less)) && forall y :: y in Sort(xs, Less) <==> y in xs
  {
    var sorted := Sort(xs, Less);
    SortAscending(xs);
    SortDistinct(xs, Less, Itself);
    hide Sort, Less;
    forall i, j | 0 <= i < j < |sorted|
      ensures Less(sorted[i], sorted[j])
    {
      LessIsTotal(sorted[i], sorted[j]);
      assert Itself(sorted[i]) != Itself(sorted[j]);
    }
  }
}
