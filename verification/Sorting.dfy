/** An in-place sort by an integer key. */
module Sorting {
  import opened Folds

  /** The first i entries are ordered, except that entry j may be too small. */
  ghost predicate OrderedBut<T>(s: seq<T>, key: T -> int, i: nat, j: nat)
    requires i <= |s|
  {
    forall p, q :: 0 <= p < q < i && q != j ==> key(s[p]) <= key(s[q])
  }

  function Swapped<T>(s: seq<T>, j: nat): seq<T>
    requires 0 < j < |s|
  {
    s[j - 1 := s[j]][j := s[j - 1]]
  }

  lemma SwappedIsPermutation<T>(s: seq<T>, j: nat)
    requires 0 < j < |s|
    ensures multiset(Swapped(s, j)) == multiset(s)
  {
  }

  lemma SwappedIsOrdered<T>(s: seq<T>, key: T -> int, i: nat, j: nat)
    requires 0 < j < i <= |s| && OrderedBut(s, key, i, j) && key(s[j]) < key(s[j - 1])
    ensures OrderedBut(Swapped(s, j), key, i, j - 1)
  {
  }

  lemma SettledIsOrdered<T>(s: seq<T>, key: T -> int, i: nat, j: nat)
    requires j < i <= |s| && OrderedBut(s, key, i, j)
    requires j == 0 || key(s[j - 1]) <= key(s[j])
    ensures OrderedBut(s, key, i, i)
  {
    forall p, q | 0 <= p < q < i ensures key(s[p]) <= key(s[q]) {
      if q == j && p < j - 1 {
        assert key(s[p]) <= key(s[j - 1]);
      }
    }
  }

  /** An ordered permutation. The program's comparators answer 1 for equal keys,
      so only their negative answers carry information, and entries with equal
      keys may end up in either order. */
  method SortFunc<T>(a: array<T>, key: T -> int)
    modifies a
    ensures Ordered(a[..], key) && multiset(a[..]) == old(multiset(a[..]))
  {
    for i := 0 to a.Length
      invariant OrderedBut(a[..], key, i, i)
      invariant multiset(a[..]) == old(multiset(a[..]))
    {
      var j := i;
      while j > 0 && key(a[j]) < key(a[j - 1])
        invariant 0 <= j <= i
        invariant OrderedBut(a[..], key, i + 1, j)
        invariant multiset(a[..]) == old(multiset(a[..]))
      {
        ghost var was := a[..];
        a[j - 1], a[j] := a[j], a[j - 1];
        assert a[..] == Swapped(was, j);
        SwappedIsPermutation(was, j);
        SwappedIsOrdered(was, key, i + 1, j);
        j := j - 1;
      }
      SettledIsOrdered(a[..], key, i + 1, j);
    }
  }
}
