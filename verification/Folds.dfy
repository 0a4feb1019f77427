/** Sums, maxima and minima over sequences, and the laws that make them
    independent of the order in which values arrive. */
module Folds {
  const MAX_INT64: int := 0x7FFF_FFFF_FFFF_FFFF
  const TWO_64: int := 0x1_0000_0000_0000_0000

  /** They are those of 64-bit integers, signed and unsigned. */
  lemma Widths()
    ensures MAX_INT64 == 9_223_372_036_854_775_807 && TWO_64 == 2 * (MAX_INT64 + 1)
  {
  }

  datatype Option<+T> = None | Some(value: T) {
    function GetOr(default: T): T {
      if Some? then value else default
    }
  }

  /** The value of an unsigned 64-bit counter that was advanced x times from 0. */
  function Wrap(x: int): int {
    x % TWO_64
  }

  lemma WrapAdd(a: int, b: int)
    ensures Wrap(Wrap(a) + b) == Wrap(a + b)
  {
    var k := a / TWO_64;
    assert a == k * TWO_64 + Wrap(a);
    WrapShift(Wrap(a) + b, k);
  }

  lemma WrapShift(x: int, k: int)
    ensures Wrap(x + k * TWO_64) == Wrap(x)
  {
    var q := x / TWO_64;
    assert x + k * TWO_64 == (q + k) * TWO_64 + Wrap(x);
    WrapUnique(x + k * TWO_64, q + k, Wrap(x));
  }

  lemma WrapUnique(x: int, q: int, r: int)
    requires x == q * TWO_64 + r && 0 <= r < TWO_64
    ensures Wrap(x) == r
  {
    assert (x / TWO_64 - q) * TWO_64 == r - Wrap(x);
  }

  /** Add is the unbounded sum; Max starts from 0 and Min from the largest
      int64, as every running extreme of the program does. */
  datatype Monoid = Add | Max | Min

  function Id(m: Monoid): int {
    match m
    case Add => 0
    case Max => 0
    case Min => MAX_INT64
  }

  function Op(m: Monoid, a: int, b: int): int {
    match m
    case Add => a + b
    case Max => if a < b then b else a
    case Min => if b < a then b else a
  }

  ghost predicate Ordered<T>(s: seq<T>, key: T -> int) {
    forall i, j :: 0 <= i < j < |s| ==> key(s[i]) <= key(s[j])
  }

  ghost predicate Ascending(s: seq<int>) {
    Ordered(s, (x: int) => x)
  }

  ghost predicate Distinct<T(!new)>(s: seq<T>) {
    forall i, j :: 0 <= i < j < |s| ==> s[i] != s[j]
  }

  function Fold(m: Monoid, s: seq<int>): int {
    if s == [] then Id(m) else Op(m, s[0], Fold(m, s[1..]))
  }

  lemma {:induction false} FoldAbsorbsId(m: Monoid, s: seq<int>)
    ensures Op(m, Id(m), Fold(m, s)) == Fold(m, s) == Op(m, Fold(m, s), Id(m))
  {
    if s != [] {
      FoldAbsorbsId(m, s[1..]);
    }
  }

  lemma {:induction false} FoldConcat(m: Monoid, a: seq<int>, b: seq<int>)
    ensures Fold(m, a + b) == Op(m, Fold(m, a), Fold(m, b))
  {
    if a == [] {
      assert a + b == b;
      FoldAbsorbsId(m, b);
    } else {
      assert (a + b)[1..] == a[1..] + b;
      FoldConcat(m, a[1..], b);
    }
  }

  lemma FoldAppend(m: Monoid, s: seq<int>, x: int)
    ensures Fold(m, s + [x]) == Op(m, Fold(m, s), x)
  {
    FoldConcat(m, s, [x]);
    FoldAbsorbsId(m, s);
    assert Fold(m, [x]) == Op(m, x, Id(m));
  }

  /** One entry can be taken out of a fold and its place blanked. */
  lemma {:induction false} FoldSplit(m: Monoid, s: seq<int>, i: nat)
    requires i < |s|
    ensures Fold(m, s) == Op(m, s[i], Fold(m, s[i := Id(m)]))
  {
    var z := s[i := Id(m)];
    if i == 0 {
      assert z[1..] == s[1..];
      FoldAbsorbsId(m, s[1..]);
    } else {
      assert z[1..] == s[1..][i - 1 := Id(m)];
      FoldSplit(m, s[1..], i - 1);
    }
  }

  /** Replacing one entry by its combination with x combines the whole fold with x. */
  lemma FoldReplace(m: Monoid, s: seq<int>, i: nat, x: int)
    requires i < |s|
    ensures Fold(m, s[i := Op(m, s[i], x)]) == Op(m, Fold(m, s), x)
  {
    var t := s[i := Op(m, s[i], x)];
    FoldSplit(m, s, i);
    FoldSplit(m, t, i);
    assert t[i := Id(m)] == s[i := Id(m)];
  }

  function Column<T(!new)>(s: seq<T>, g: T -> int): (c: seq<int>)
    ensures |c| == |s| && forall i :: 0 <= i < |s| ==> c[i] == g(s[i])
  {
    seq(|s|, i requires 0 <= i < |s| => g(s[i]))
  }

  lemma ColumnConcat<T(!new)>(a: seq<T>, b: seq<T>, g: T -> int)
    ensures Column(a + b, g) == Column(a, g) + Column(b, g)
  {
  }

  /** A permutation of two sequences starts with a matching entry and
      permutes what remains. */
  lemma MatchHead<T>(a: seq<T>, b: seq<T>) returns (k: nat)
    requires multiset(a) == multiset(b) && a != []
    ensures k < |b| && b[k] == a[0]
    ensures multiset(a[1..]) == multiset(b[..k] + b[k + 1..])
    ensures b == b[..k] + [a[0]] + b[k + 1..]
  {
    assert a == [a[0]] + a[1..];
    assert a[0] in multiset(b);
    k :| 0 <= k < |b| && b[k] == a[0];
    assert b == b[..k] + [a[0]] + b[k + 1..];
    assert multiset(b) == multiset(b[..k] + b[k + 1..]) + multiset{a[0]};
    assert multiset(a) == multiset(a[1..]) + multiset{a[0]};
    assert multiset(a[1..]) == multiset(a) - multiset{a[0]};
    assert multiset(b[..k] + b[k + 1..]) == multiset(b) - multiset{a[0]};
  }

  lemma FoldInsert(m: Monoid, l: seq<int>, x: int, r: seq<int>)
    ensures Fold(m, l + [x] + r) == Op(m, x, Fold(m, l + r))
  {
    assert l + [x] + r == l + ([x] + r);
    FoldConcat(m, l, [x] + r);
    FoldConcat(m, l, r);
    FoldConcat(m, [x], r);
    FoldAbsorbsId(m, r);
    FoldAbsorbsId(m, l);
  }

  lemma ColumnInsert<T(!new)>(l: seq<T>, x: T, r: seq<T>, g: T -> int)
    ensures Column(l + [x] + r, g) == Column(l, g) + [g(x)] + Column(r, g)
    ensures Column(l + r, g) == Column(l, g) + Column(r, g)
  {
  }

  /** The fold of a column depends only on which records there are,
      never on their order. */
  lemma {:induction false} FoldPermutation<T(!new)>(m: Monoid, a: seq<T>, b: seq<T>, g: T -> int)
    requires multiset(a) == multiset(b)
    ensures Fold(m, Column(a, g)) == Fold(m, Column(b, g))
    decreases |a|
  {
    if a == [] {
      assert |multiset(b)| == 0;
      assert b == [];
    } else {
      var k := MatchHead(a, b);
      FoldPermutation(m, a[1..], b[..k] + b[k + 1..], g);
      assert Column(a, g)[1..] == Column(a[1..], g);
      ColumnInsert(b[..k], a[0], b[k + 1..], g);
      FoldInsert(m, Column(b[..k], g), g(a[0]), Column(b[k + 1..], g));
    }
  }

  /** Fold(Max, s) and Fold(Min, s) are the true extremes of s together with the identity. */
  lemma {:induction false} FoldIsExtreme(m: Monoid, s: seq<int>)
    requires m != Add
    ensures Fold(m, s) == Id(m) || Fold(m, s) in s
    ensures Op(m, Fold(m, s), Id(m)) == Fold(m, s)
    ensures forall i :: 0 <= i < |s| ==> Op(m, Fold(m, s), s[i]) == Fold(m, s)
  {
    if s != [] {
      FoldIsExtreme(m, s[1..]);
      forall i | 0 <= i < |s| ensures Op(m, Fold(m, s), s[i]) == Fold(m, s) {
        if i > 0 {
          assert s[i] == s[1..][i - 1];
        }
      }
    }
  }
}
