// Sequences without repetitions, as multisets, and stably sorted.
module Sequences {

  predicate Distinct<T(==)>(q: seq<T>) {
    forall i, j :: 0 <= i < j < |q| ==> q[i] != q[j]
  }

  function Without<T>(q: seq<T>, k: nat): seq<T>
    requires k < |q|
  {
    q[..k] + q[k+1..]
  }

  lemma TakenOut<T>(q: seq<T>, k: nat)
    requires k < |q|
    ensures multiset(q) == multiset(Without(q, k)) + multiset{q[k]} && |Without(q, k)| == |q| - 1
  {
    assert q == q[..k] + [q[k]] + q[k+1..];
  }

  lemma Twice<T>(q: seq<T>, i: nat, j: nat)
    requires i < j < |q| && q[i] == q[j]
    ensures multiset(q)[q[i]] >= 2
  {
    TakenOut(q, j);
    assert Without(q, j)[i] == q[i];
  }

  lemma Once<T>(q: seq<T>, k: nat)
    requires k < |q| && forall i :: 0 <= i < |q| && i != k ==> q[i] != q[k]
    ensures multiset(q)[q[k]] == 1
  {
    TakenOut(q, k);
    assert q[k] !in Without(q, k);
  }

  // Two arrangements of the same elements.
  lemma SameMembers<T>(a: seq<T>, b: seq<T>)
    requires multiset(a) == multiset(b)
    ensures |a| == |b| && (forall x :: x in a <==> x in b)
    ensures Distinct(b) ==> Distinct(a)
  {
    assert |multiset(a)| == |multiset(b)|;
    forall x ensures x in a <==> x in b {
      assert x in a <==> x in multiset(a);
      assert x in b <==> x in multiset(b);
    }
    if Distinct(b) {
      forall i, j | 0 <= i < j < |a| ensures a[i] != a[j] {
        if a[i] == a[j] {
          Twice(a, i, j);
          var k :| 0 <= k < |b| && b[k] == a[i];
          Once(b, k);
        }
      }
    }
  }

  // ---- sorting ---------------------------------------------------------------------

  // Stable insertion from the right.
  function InsertBy<T>(q: seq<T>, x: T, before: (T, T) -> bool): seq<T> {
    if q != [] && before(x, q[|q|-1]) then InsertBy(q[..|q|-1], x, before) + [q[|q|-1]] else q + [x]
  }

  // Python's `sorted` and Go's `sort.SliceStable`.
  function SortBy<T>(q: seq<T>, before: (T, T) -> bool): seq<T> {
    if q == [] then [] else InsertBy(SortBy(q[..|q|-1], before), q[|q|-1], before)
  }

  ghost predicate InOrder<T>(q: seq<T>, before: (T, T) -> bool) {
    forall i, j :: 0 <= i < j < |q| ==> !before(q[j], q[i])
  }

  // A strict weak order on the elements of `u`.
  ghost predicate Ranks<T(!new)>(u: T -> bool, before: (T, T) -> bool) {
    && (forall a, b :: u(a) && u(b) && before(a, b) ==> !before(b, a))
    && (forall a, b, c :: u(a) && u(b) && u(c) && !before(a, b) && !before(b, c) ==> !before(a, c))
  }

  ghost predicate Among<T>(u: T -> bool, q: seq<T>) {
    forall i :: 0 <= i < |q| ==> u(q[i])
  }

  lemma LastTaken<T>(q: seq<T>)
    requires q != []
    ensures multiset(q) == multiset(q[..|q|-1]) + multiset{q[|q|-1]}
  {
    assert q == q[..|q|-1] + [q[|q|-1]];
  }

  lemma {:induction false} InsertContents<T>(q: seq<T>, x: T, before: (T, T) -> bool)
    ensures multiset(InsertBy(q, x, before)) == multiset(q) + multiset{x}
  {
    if q != [] && before(x, q[|q|-1]) {
      InsertContents(q[..|q|-1], x, before);
      LastTaken(q);
    }
  }

  lemma {:induction false} SortContents<T>(q: seq<T>, before: (T, T) -> bool)
    ensures multiset(SortBy(q, before)) == multiset(q)
    ensures |SortBy(q, before)| == |q|
  {
    if q != [] {
      var init := SortBy(q[..|q|-1], before);
      SortContents(q[..|q|-1], before);
      InsertContents(init, q[|q|-1], before);
      LastTaken(q);
      hide InsertBy;
    }
    assert |multiset(SortBy(q, before))| == |multiset(q)|;
  }

  lemma {:induction false} InsertStays<T(!new)>(u: T -> bool, q: seq<T>, x: T, before: (T, T) -> bool)
    requires Among(u, q) && u(x)
    ensures Among(u, InsertBy(q, x, before))
  {
    if q != [] && before(x, q[|q|-1]) { InsertStays(u, q[..|q|-1], x, before); }
  }

  // Everything before the last element stays before it.
  lemma {:induction false} InsertBelow<T(!new)>(q: seq<T>, x: T, y: T, before: (T, T) -> bool)
    requires !before(y, x) && forall i :: 0 <= i < |q| ==> !before(y, q[i])
    ensures forall i :: 0 <= i < |InsertBy(q, x, before)| ==> !before(y, InsertBy(q, x, before)[i])
  {
    if q != [] && before(x, q[|q|-1]) { InsertBelow(q[..|q|-1], x, y, before); }
  }

  lemma {:induction false} InsertInOrder<T(!new)>(u: T -> bool, q: seq<T>, x: T, before: (T, T) -> bool)
    requires Ranks(u, before) && Among(u, q) && u(x) && InOrder(q, before)
    ensures InOrder(InsertBy(q, x, before), before)
  {
    if q != [] {
      var init, last := q[..|q|-1], q[|q|-1];
      if before(x, last) {
        InsertInOrder(u, init, x, before);
        InsertBelow(init, x, last, before);
        hide Ranks, InsertBy;
      } else {
        forall i | 0 <= i < |q| ensures !before(x, q[i]) {
          assert i == |q| - 1 || !before(last, q[i]);
        }
      }
    }
  }

  lemma {:induction false} SortInOrder<T(!new)>(u: T -> bool, q: seq<T>, before: (T, T) -> bool)
    requires Ranks(u, before) && Among(u, q)
    ensures InOrder(SortBy(q, before), before) && Among(u, SortBy(q, before))
  {
    if q != [] {
      var init := SortBy(q[..|q|-1], before);
      SortInOrder(u, q[..|q|-1], before);
      InsertStays(u, init, q[|q|-1], before);
      InsertInOrder(u, init, q[|q|-1], before);
      hide Ranks, InsertBy, InOrder;
    }
  }
}
