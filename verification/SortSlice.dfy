/**
 Go's `sort.Slice` and `sort.Strings`: an in-place sort by a strict weak order.
 The library sort is unstable, so clients may rely only on the contract of `Sort`
 (a sorted permutation): which of several equivalent elements comes first is
 left open, and every result that goes through `Sort` holds for each choice.
 */
module SortSlice {

  /** `less` is a strict weak order: asymmetric, and "not greater" is transitive. */
  ghost predicate StrictWeakOrder<T(!new)>(less: (T, T) -> bool) {
    && (forall x, y :: less(x, y) ==> !less(y, x))
    && (forall x, y, z :: !less(y, x) && !less(z, y) ==> !less(z, x))
  }

  /** No later element is strictly less than an earlier one. */
  ghost predicate Sorted<T>(less: (T, T) -> bool, s: seq<T>) {
    forall i, j :: 0 <= i < j < |s| ==> !less(s[j], s[i])
  }

  /** Inserts `x` in front of the first element it is less than. */
  function Insert<T>(less: (T, T) -> bool, s: seq<T>, x: T): (r: seq<T>)
    ensures multiset(r) == multiset(s) + multiset{x}
  {
    if s == [] then [x]
    else if less(x, s[0]) then [x] + s
    else
      assert s == [s[0]] + s[1..];
      [s[0]] + Insert(less, s[1..], x)
  }

  lemma {:induction false} InsertKeepsSorted<T(!new)>(less: (T, T) -> bool, s: seq<T>, x: T)
    requires StrictWeakOrder(less) && Sorted(less, s)
    ensures Sorted(less, Insert(less, s, x))
  {
    if s == [] {
    } else if less(x, s[0]) {
      assert !less(s[0], x);
    } else {
      InsertKeepsSorted(less, s[1..], x);
      var r := Insert(less, s[1..], x);
      forall y | y in r ensures !less(y, s[0]) {
        assert y in multiset(r);
        assert y == x || y in multiset(s[1..]);
      }
    }
  }

  /** Sorts `a` in place; any order among equivalent elements is allowed. */
  method Sort<T(!new)>(a: array<T>, less: (T, T) -> bool)
    requires StrictWeakOrder(less)
    modifies a
    ensures Sorted(less, a[..])
    ensures multiset(a[..]) == multiset(old(a[..]))
  {
    var s: seq<T> := [];
    for i := 0 to a.Length
      invariant a[..] == old(a[..])
      invariant Sorted(less, s) && multiset(s) == multiset(a[..i])
    {
      InsertKeepsSorted(less, s, a[i]);
      s := Insert(less, s, a[i]);
      assert a[..i + 1] == a[..i] + [a[i]];
    }
    assert a[..a.Length] == a[..];
    assert |s| == |multiset(s)| == |multiset(a[..])| == a.Length;
    forall i | 0 <= i < a.Length {
      a[i] := s[i];
    }
    assert a[..] == s;
  }
}
