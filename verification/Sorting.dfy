// std::sort and the ordered insertion behind std::multiset, as functions.
module Sorting {
  function Place<T>(s: seq<T>, x: T, lt: (T, T) -> bool): seq<T> {
    if s == [] || !lt(x, s[|s| - 1]) then s + [x] else Place(s[..|s| - 1], x, lt) + [s[|s| - 1]]
  }

  function Sort<T>(s: seq<T>, lt: (T, T) -> bool): seq<T> {
    if s == [] then [] else Place(Sort(s[..|s| - 1], lt), s[|s| - 1], lt)
  }

  ghost predicate Sorted<T>(s: seq<T>, lt: (T, T) -> bool) {
    forall i, j :: 0 <= i < j < |s| ==> !lt(s[j], s[i])
  }

  ghost predicate WeakOrder<T(!new)>(lt: (T, T) -> bool) {
    && (forall x, y :: lt(x, y) ==> !lt(y, x))
    && forall x, y, z :: lt(x, y) && !lt(z, y) ==> lt(x, z)
  }

  lemma SortedPush<T(!new)>(s: seq<T>, x: T, lt: (T, T) -> bool)
    requires Sorted(s, lt) && forall y :: y in s ==> !lt(x, y)
    ensures Sorted(s + [x], lt)
  {
  }

  lemma {:induction false} PlaceSorted<T(!new)>(s: seq<T>, x: T, lt: (T, T) -> bool)
    requires WeakOrder(lt) && Sorted(s, lt)
    ensures Sorted(Place(s, x, lt), lt) && multiset(Place(s, x, lt)) == multiset(s) + multiset{x}
  {
    if s == [] || !lt(x, s[|s| - 1]) {
      forall y | y in s ensures !lt(x, y) {
        LastIsGreatest(s, y, lt);
      }
      SortedPush(s, x, lt);
    } else {
      var n := |s| - 1;
      PlaceSorted(s[..n], x, lt);
      assert s == s[..n] + [s[n]];
      forall y | y in Place(s[..n], x, lt) ensures !lt(s[n], y) {
        assert y in multiset(Place(s[..n], x, lt));
        if y in s[..n] {
          LastIsGreatest(s, y, lt);
        }
      }
      SortedPush(Place(s[..n], x, lt), s[n], lt);
    }
  }

  lemma LastIsGreatest<T(!new)>(s: seq<T>, y: T, lt: (T, T) -> bool)
    requires Sorted(s, lt) && y in s && WeakOrder(lt)
    ensures !lt(s[|s| - 1], y)
  {
    var i :| 0 <= i < |s| && s[i] == y;
    assert i == |s| - 1 || !lt(s[|s| - 1], s[i]);
  }

  lemma {:induction false} SortSorted<T(!new)>(s: seq<T>, lt: (T, T) -> bool)
    requires WeakOrder(lt)
    ensures Sorted(Sort(s, lt), lt) && multiset(Sort(s, lt)) == multiset(s)
  {
    if s != [] {
      SortSorted(s[..|s| - 1], lt);
      PlaceSorted(Sort(s[..|s| - 1], lt), s[|s| - 1], lt);
      assert s == s[..|s| - 1] + [s[|s| - 1]];
    }
  }

  // An element standing twice in one list stands twice in a permutation of it.
  lemma TwiceInBoth<T>(a: seq<T>, b: seq<T>, i: nat, j: nat)
    requires i < j < |a| && a[i] == a[j] && multiset(a) == multiset(b)
    ensures exists p, q :: 0 <= p < q < |b| && b[p] == b[q] == a[i]
  {
    var x := a[i];
    assert a == a[..i] + [x] + a[i + 1..j] + [x] + a[j + 1..];
    assert multiset(b)[x] >= 2;
    var p :| 0 <= p < |b| && b[p] == x;
    assert b == b[..p] + [x] + b[p + 1..];
    assert multiset(b[..p])[x] + multiset(b[p + 1..])[x] >= 1;
    if x in multiset(b[..p]) {
      var q :| 0 <= q < p && b[..p][q] == x;
      assert b[q] == b[p] == x;
    } else {
      assert x in multiset(b[p + 1..]);
      var q :| 0 <= q < |b| - p - 1 && b[p + 1..][q] == x;
      assert b[p] == b[p + 1 + q] == x;
    }
  }

  // ---- strict total orders ----

  ghost predicate TotalOrder<T(!new)>(lt: (T, T) -> bool) {
    && (forall x, y :: lt(x, y) ==> !lt(y, x))
    && (forall x, y, z :: lt(x, y) && lt(y, z) ==> lt(x, z))
    && Trichotomous(lt)
  }

  lemma TotalIsWeak<T(!new)>(lt: (T, T) -> bool)
    requires TotalOrder(lt)
    ensures WeakOrder(lt)
  {
  }

  ghost predicate Trichotomous<T(!new)>(lt: (T, T) -> bool) {
    forall x, y {:trigger lt(x, y), lt(y, x)} :: x != y ==> lt(x, y) || lt(y, x)
  }

  // The order tells any two members of s apart.
  ghost predicate Separates<T(!new)>(s: seq<T>, lt: (T, T) -> bool) {
    forall x, y {:trigger lt(x, y), lt(y, x)} :: x in s && y in s && x != y ==> lt(x, y) || lt(y, x)
  }

  lemma LastsEqual<T(!new)>(a: seq<T>, b: seq<T>, lt: (T, T) -> bool)
    requires Separates(a, lt) && Sorted(a, lt) && Sorted(b, lt) && multiset(a) == multiset(b) && a != [] && b != []
    ensures a[|a| - 1] == b[|b| - 1]
  {
    var x, y := a[|a| - 1], b[|b| - 1];
    assert x in multiset(b) && y in multiset(a);
    var i :| 0 <= i < |b| && b[i] == x;
    var j :| 0 <= j < |a| && a[j] == y;
    assert i == |b| - 1 || !lt(y, x);
    assert j == |a| - 1 || !lt(x, y);
  }

  lemma DropLast<T>(a: seq<T>, b: seq<T>)
    requires a != [] && b != [] && a[|a| - 1] == b[|b| - 1] && multiset(a) == multiset(b)
    ensures multiset(a[..|a| - 1]) == multiset(b[..|b| - 1])
  {
    var x := a[|a| - 1];
    assert a == a[..|a| - 1] + [x];
    assert b == b[..|b| - 1] + [x];
    assert multiset(a) - multiset{x} == multiset(a[..|a| - 1]);
    assert multiset(b) - multiset{x} == multiset(b[..|b| - 1]);
  }

  // Under such an order a multiset has one sorted listing.
  lemma {:induction false} SortedUnique<T(!new)>(a: seq<T>, b: seq<T>, lt: (T, T) -> bool)
    requires Separates(a, lt) && Sorted(a, lt) && Sorted(b, lt) && multiset(a) == multiset(b)
    ensures a == b
    decreases |a|
  {
    assert |b| == |multiset(b)| == |multiset(a)| == |a|;
    if a != [] {
      var n := |a| - 1;
      LastsEqual(a, b, lt);
      DropLast(a, b);
      SortedUnique(a[..n], b[..n], lt);
      assert a == a[..n] + [a[n]] && b == b[..n] + [b[n]];
    }
  }
}
