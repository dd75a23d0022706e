/** The stable sort that the reports rely on: what it promises, that the promise leaves one result only, and an
    in-place sort that gives it. */
module Sorting {

  ghost predicate Ordered<T>(s: seq<T>, key: T -> real) {
    forall i, j :: 0 <= i <= j < |s| ==> key(s[i]) <= key(s[j])
  }

  /** Insertion from the right, after the elements of equal key. */
  function Insert<T>(s: seq<T>, x: T, key: T -> real): (r: seq<T>)
    ensures |r| == |s| + 1
  {
    var n := |s|;
    if n == 0 || key(s[n - 1]) <= key(x) then s + [x] else Insert(s[..n - 1], x, key) + [s[n - 1]]
  }

  function Sort<T>(s: seq<T>, key: T -> real): (r: seq<T>)
    ensures |r| == |s|
  {
    if s == [] then [] else Insert(Sort(s[..|s| - 1], key), s[|s| - 1], key)
  }

  /** The elements of one key, in their order. */
  function WithKey<T>(s: seq<T>, key: T -> real, k: real): seq<T> {
    if s == [] then []
    else
      var last := s[|s| - 1];
      WithKey(s[..|s| - 1], key, k) + if key(last) == k then [last] else []
  }

  lemma WithKeySnoc<T>(s: seq<T>, x: T, key: T -> real, k: real)
    ensures WithKey(s + [x], key, k) == WithKey(s, key, k) + if key(x) == k then [x] else []
  {
    assert (s + [x])[..|s|] == s;
  }

  lemma {:induction false} InsertAdds<T>(s: seq<T>, x: T, key: T -> real)
    ensures multiset(Insert(s, x, key)) == multiset(s) + multiset{x}
  {
    var n := |s|;
    if n > 0 && key(s[n - 1]) > key(x) {
      InsertAdds(s[..n - 1], x, key);
      assert s == s[..n - 1] + [s[n - 1]];
    }
  }

  lemma {:induction false} InsertOrders<T>(s: seq<T>, x: T, key: T -> real)
    requires Ordered(s, key)
    ensures Ordered(Insert(s, x, key), key)
  {
    var n := |s|;
    if n > 0 && key(s[n - 1]) > key(x) {
      var r := Insert(s[..n - 1], x, key);
      InsertOrders(s[..n - 1], x, key);
      InsertAdds(s[..n - 1], x, key);
      forall i | 0 <= i < |r| ensures key(r[i]) <= key(s[n - 1]) {
        assert r[i] in multiset(r);
        assert r[i] == x || r[i] in s[..n - 1];
      }
    }
  }

  lemma {:induction false} InsertStable<T>(s: seq<T>, x: T, key: T -> real, k: real)
    ensures WithKey(Insert(s, x, key), key, k) == WithKey(s, key, k) + if key(x) == k then [x] else []
  {
    var n := |s|;
    if n == 0 || key(s[n - 1]) <= key(x) {
      WithKeySnoc(s, x, key, k);
    } else {
      InsertStable(s[..n - 1], x, key, k);
      WithKeySnoc(Insert(s[..n - 1], x, key), s[n - 1], key, k);
    }
  }

  /** The result is ordered, a permutation, and keeps the order of elements of equal key. */
  lemma {:induction false} SortSorts<T>(s: seq<T>, key: T -> real)
    ensures Ordered(Sort(s, key), key)
    ensures multiset(Sort(s, key)) == multiset(s)
    ensures forall k :: WithKey(Sort(s, key), key, k) == WithKey(s, key, k)
  {
    if s != [] {
      var n := |s| - 1;
      SortSorts(s[..n], key);
      var r := Sort(s[..n], key);
      InsertOrders(r, s[n], key);
      InsertAdds(r, s[n], key);
      assert s == s[..n] + [s[n]];
      forall k ensures WithKey(Sort(s, key), key, k) == WithKey(s, key, k) {
        InsertStable(r, s[n], key, k);
      }
    }
  }

  lemma {:induction false} HasKey<T>(s: seq<T>, key: T -> real, k: real) returns (i: nat)
    requires WithKey(s, key, k) != []
    ensures i < |s| && key(s[i]) == k
  {
    i := |s| - 1;
    if key(s[i]) != k {
      i := HasKey(s[..|s| - 1], key, k);
    }
  }

  lemma LastKey<T>(a: seq<T>, b: seq<T>, key: T -> real)
    requires a != [] && Ordered(b, key) && forall k :: WithKey(a, key, k) == WithKey(b, key, k)
    ensures b != [] && key(a[|a| - 1]) <= key(b[|b| - 1])
  {
    var k := key(a[|a| - 1]);
    assert WithKey(a, key, k) != [];
    var i := HasKey(b, key, k);
  }

  /** Any stable sort, whatever its algorithm, gives this result. */
  lemma {:induction false} StableSortIsUnique<T>(a: seq<T>, b: seq<T>, key: T -> real)
    requires Ordered(a, key) && Ordered(b, key)
    requires forall k :: WithKey(a, key, k) == WithKey(b, key, k)
    ensures a == b
  {
    if a == [] {
      if b != [] {
        LastKey(b, a, key);
      }
    } else {
      LastKey(a, b, key);
      LastKey(b, a, key);
      var m, n := |a| - 1, |b| - 1;
      assert key(a[m]) == key(b[n]);
      var top := key(a[m]);
      assert WithKey(a, key, top) == WithKey(a[..m], key, top) + [a[m]];
      assert WithKey(b, key, top) == WithKey(b[..n], key, top) + [b[n]];
      SameEnds(WithKey(a[..m], key, top), a[m], WithKey(b[..n], key, top), b[n]);
      forall k ensures WithKey(a[..m], key, k) == WithKey(b[..n], key, k) {
        if k != top {
          assert WithKey(a, key, k) == WithKey(a[..m], key, k);
          assert WithKey(b, key, k) == WithKey(b[..n], key, k);
        }
      }
      StableSortIsUnique(a[..m], b[..n], key);
      assert a == a[..m] + [a[m]] && b == b[..n] + [b[n]];
    }
  }

  lemma SameEnds<T>(a: seq<T>, x: T, b: seq<T>, y: T)
    requires a + [x] == b + [y]
    ensures a == b && x == y
  {
    assert |a + [x]| == |b + [y]|;
    assert a == (a + [x])[..|a|] && b == (b + [y])[..|b|];
    assert (a + [x])[|a|] == x && (b + [y])[|b|] == y;
  }

  /** `x` at position `j` among the elements of `s`. */
  function With<T>(s: seq<T>, j: nat, x: T): (r: seq<T>)
    requires j <= |s|
    ensures |r| == |s| + 1 && r[j] == x
  {
    s[..j] + [x] + s[j..]
  }

  lemma Swapped<T>(s: seq<T>, j: nat, x: T, tail: seq<T>)
    requires 0 < j <= |s|
    ensures var r := With(s, j, x) + tail;
            && r[j - 1] == s[j - 1] && r[j] == x
            && r[j := s[j - 1]][j - 1 := x] == With(s, j - 1, x) + tail
  {
  }

  lemma Parts<T>(all: seq<T>, i: nat)
    requires i < |all|
    ensures all == With(all[..i], i, all[i]) + all[i + 1..]
  {
  }

  lemma Place<T>(s: seq<T>, j: nat, x: T, key: T -> real)
    requires j <= |s| && (j == 0 || key(s[j - 1]) <= key(x))
    requires Insert(s, x, key) == Insert(s[..j], x, key) + s[j..]
    ensures With(s, j, x) == Insert(s, x, key)
  {
    assert j > 0 ==> s[..j][j - 1] == s[j - 1];
  }

  lemma InsertBelow<T>(s: seq<T>, j: nat, x: T, key: T -> real)
    requires 0 < j <= |s| && key(s[j - 1]) > key(x)
    ensures Insert(s[..j], x, key) == Insert(s[..j - 1], x, key) + [s[j - 1]]
  {
    assert s[..j][j - 1] == s[j - 1] && s[..j][..j - 1] == s[..j - 1];
  }

  lemma Passed<T>(s: seq<T>, j: nat, x: T, key: T -> real)
    requires 0 < j <= |s| && key(s[j - 1]) > key(x)
    requires Insert(s, x, key) == Insert(s[..j], x, key) + s[j..]
    ensures Insert(s, x, key) == Insert(s[..j - 1], x, key) + s[j - 1..]
  {
    hide Insert;
    InsertBelow(s, j, x, key);
    assert s[j - 1..] == [s[j - 1]] + s[j..];
  }

  /** Moves `a[i]` down to its place among the ordered elements before it. */
  method InsertInPlace<T>(a: array<T>, i: nat, key: T -> real)
    requires i < a.Length
    modifies a
    ensures a[..] == Insert(old(a[..i]), old(a[i]), key) + old(a[i + 1..])
  {
    hide Insert, With;
    var x, j := a[i], i;
    ghost var s, tail := a[..i], a[i + 1..];
    Parts(a[..], i);
    assert s[i..] == [] && s[..i] == s;
    while j > 0 && key(a[j - 1]) > key(x)
      invariant j <= i && a[..] == With(s, j, x) + tail
      invariant Insert(s, x, key) == Insert(s[..j], x, key) + s[j..]
    {
      ghost var r := a[..];
      Swapped(s, j, x, tail);
      Passed(s, j, x, key);
      a[j - 1], a[j] := a[j], a[j - 1];
      assert a[..] == r[j := r[j - 1]][j - 1 := r[j]];
      j := j - 1;
    }
    if j > 0 {
      Swapped(s, j, x, tail);
      assert a[j - 1] == a[..][j - 1];
    }
    Place(s, j, x, key);
  }

  lemma SortNext<T>(was: seq<T>, i: nat, key: T -> real)
    requires i < |was|
    ensures Sort(was[..i + 1], key) == Insert(Sort(was[..i], key), was[i], key)
  {
    assert was[..i + 1][..i] == was[..i];
  }

  /** After `i` turns: the first `i` elements sorted, the others as they were. */
  function Turned<T>(was: seq<T>, i: nat, key: T -> real): (r: seq<T>)
    requires i <= |was|
    ensures |r| == |was|
  {
    Sort(was[..i], key) + was[i..]
  }

  lemma TurnParts<T>(was: seq<T>, i: nat, key: T -> real)
    requires i < |was|
    ensures var r := Turned(was, i, key);
            && r[..i] == Sort(was[..i], key) && r[i] == was[i] && r[i + 1..] == was[i + 1..]
            && Insert(r[..i], r[i], key) + r[i + 1..] == Turned(was, i + 1, key)
  {
    hide Sort, Insert;
    SortNext(was, i, key);
  }

  lemma TurnEnds<T>(was: seq<T>, key: T -> real)
    ensures Turned(was, 0, key) == was && Turned(was, |was|, key) == Sort(was, key)
  {
    assert was[..0] == [] && was[0..] == was && was[..|was|] == was && was[|was|..] == [];
  }

  method SortInPlace<T>(a: array<T>, key: T -> real)
    modifies a
    ensures a[..] == Sort(old(a[..]), key)
  {
    hide Sort, Insert, Turned;
    var i := 0;
    ghost var was := a[..];
    TurnEnds(was, key);
    while i < a.Length
      invariant i <= a.Length && a[..] == Turned(was, i, key)
    {
      TurnParts(was, i, key);
      assert a[..][..i] == a[..i] && a[..][i] == a[i] && a[..][i + 1..] == a[i + 1..];
      InsertInPlace(a, i, key);
      i := i + 1;
    }
  }
}
