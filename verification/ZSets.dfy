// Z-sets (include/dbsp_zset.hpp): finite maps from elements to integer
// weights, absent elements weighing 0. Everything the operators are proved
// against is stated through the pointwise weight `W`.
module ZSets {
  type ZSet<T> = map<T, int>

  function W<T(==)>(z: ZSet<T>, x: T): int {
    if x in z then z[x] else 0
  }

  // The representation never stores a zero weight.
  ghost predicate Normal<T>(z: ZSet<T>) {
    forall x :: x in z ==> z[x] != 0
  }

  // Integrated real tables: no row is deleted more often than it was inserted.
  ghost predicate NonNeg<T(!new)>(z: ZSet<T>) {
    forall x :: W(z, x) >= 0
  }

  function Insert<T(==, !new)>(z: ZSet<T>, x: T, w: int): (r: ZSet<T>)
    ensures forall y {:trigger W(r, y)} :: W(r, y) == W(z, y) + if y == x then w else 0
    ensures Normal(z) ==> Normal(r)
    ensures r.Keys <= z.Keys + {x}
  {
    if W(z, x) + w == 0 then z - {x} else z[x := W(z, x) + w]
  }

  function Plus<T(==, !new)>(a: ZSet<T>, b: ZSet<T>): (r: ZSet<T>)
    ensures forall y {:trigger W(r, y)} :: W(r, y) == W(a, y) + W(b, y)
    ensures Normal(r)
    ensures r.Keys <= a.Keys + b.Keys
  {
    map x | x in a.Keys + b.Keys && W(a, x) + W(b, x) != 0 :: W(a, x) + W(b, x)
  }

  function Minus<T(==, !new)>(a: ZSet<T>, b: ZSet<T>): (r: ZSet<T>)
    ensures forall y {:trigger W(r, y)} :: W(r, y) == W(a, y) - W(b, y)
    ensures Normal(r)
    ensures r.Keys <= a.Keys + b.Keys
  {
    map x | x in a.Keys + b.Keys && W(a, x) - W(b, x) != 0 :: W(a, x) - W(b, x)
  }

  lemma Extensional<T(!new)>(a: ZSet<T>, b: ZSet<T>)
    requires Normal(a) && Normal(b)
    requires forall x :: W(a, x) == W(b, x)
    ensures a == b
  {
    forall x | x in a.Keys + b.Keys ensures x in a && x in b && a[x] == b[x] {
      assert W(a, x) == W(b, x);
    }
    assert a.Keys == b.Keys;
  }

  // Finite sums.
  ghost function Total<T>(s: set<T>, f: T -> int): int {
    if s == {} then 0 else var x :| x in s; f(x) + Total(s - {x}, f)
  }

  lemma {:induction false} TotalAdd<T>(s: set<T>, x: T, f: T -> int)
    requires x !in s
    ensures Total(s + {x}, f) == f(x) + Total(s, f)
    decreases |s|
  {
    var t := s + {x};
    var y :| y in t && Total(t, f) == f(y) + Total(t - {y}, f);
    if y == x {
      assert t - {x} == s;
    } else {
      assert t - {y} == (s - {y}) + {x};
      TotalAdd(s - {y}, x, f);
      TotalAdd(s - {y}, y, f);
      assert (s - {y}) + {y} == s;
    }
  }

  lemma {:induction false} TotalCongruent<T(!new)>(s: set<T>, f: T -> int, g: T -> int)
    requires forall x :: x in s ==> f(x) == g(x)
    ensures Total(s, f) == Total(s, g)
    decreases |s|
  {
    if s != {} {
      var x :| x in s;
      TotalCongruent(s - {x}, f, g);
      TotalAdd(s - {x}, x, f);
      TotalAdd(s - {x}, x, g);
      assert (s - {x}) + {x} == s;
    }
  }

  lemma {:induction false} TotalLinear<T(!new)>(s: set<T>, f: T -> int, g: T -> int, h: T -> int)
    requires forall x :: x in s ==> h(x) == f(x) + g(x)
    ensures Total(s, h) == Total(s, f) + Total(s, g)
    decreases |s|
  {
    if s != {} {
      var x :| x in s;
      TotalLinear(s - {x}, f, g, h);
      TotalAdd(s - {x}, x, f);
      TotalAdd(s - {x}, x, g);
      TotalAdd(s - {x}, x, h);
      assert (s - {x}) + {x} == s;
    }
  }

  // Elements of weight 0 do not matter to a sum.
  lemma {:induction false} TotalWiden<T(!new)>(s: set<T>, t: set<T>, f: T -> int)
    requires s <= t
    requires forall x :: x in t - s ==> f(x) == 0
    ensures Total(s, f) == Total(t, f)
    decreases |t - s|
  {
    if t - s == {} {
      assert s == t by {
        forall x | x in t ensures x in s { assert x !in t - s; }
      }
    } else {
      var x :| x in t - s;
      TotalAdd(s, x, f);
      assert t - (s + {x}) == (t - s) - {x};
      TotalWiden(s + {x}, t, f);
    }
  }

  lemma {:induction false} TotalSign<T(!new)>(s: set<T>, f: T -> int)
    requires forall x :: x in s ==> f(x) >= 0
    ensures Total(s, f) >= 0
    ensures Total(s, f) == 0 <==> forall x :: x in s ==> f(x) == 0
    decreases |s|
  {
    if s != {} {
      var x :| x in s;
      TotalSign(s - {x}, f);
      TotalAdd(s - {x}, x, f);
      assert (s - {x}) + {x} == s;
    }
  }

  // The weight of a Z-set restricted to a predicate.
  ghost function Mass<T(!new)>(z: ZSet<T>, p: T -> bool): int {
    Total(z.Keys, x => if p(x) then W(z, x) else 0)
  }

  lemma MassOver<T(!new)>(z: ZSet<T>, p: T -> bool, s: set<T>)
    requires z.Keys <= s
    ensures Mass(z, p) == Total(s, x => if p(x) then W(z, x) else 0)
  {
    TotalWiden(z.Keys, s, x => if p(x) then W(z, x) else 0);
  }

  lemma MassPlus<T(!new)>(a: ZSet<T>, b: ZSet<T>, p: T -> bool)
    ensures Mass(Plus(a, b), p) == Mass(a, p) + Mass(b, p)
  {
    var s := a.Keys + b.Keys;
    MassOver(a, p, s);
    MassOver(b, p, s);
    MassOver(Plus(a, b), p, s);
    TotalLinear(s, x => if p(x) then W(a, x) else 0, x => if p(x) then W(b, x) else 0,
                x => if p(x) then W(Plus(a, b), x) else 0);
  }

  lemma MassInsert<T(!new)>(z: ZSet<T>, x: T, w: int, p: T -> bool)
    ensures Mass(Insert(z, x, w), p) == Mass(z, p) + if p(x) then w else 0
  {
    var s := z.Keys + {x};
    var one := map[x := w];
    MassOver(z, p, s);
    MassOver(Insert(z, x, w), p, s);
    TotalLinear(s, y => if p(y) then W(z, y) else 0, y => if p(y) then W(one, y) else 0,
                y => if p(y) then W(Insert(z, x, w), y) else 0);
    MassOver(one, p, s);
    TotalAdd({}, x, y => if p(y) then W(one, y) else 0);
    assert one.Keys == {} + {x};
  }

  lemma MassAgrees<T(!new)>(a: ZSet<T>, b: ZSet<T>, p: T -> bool)
    requires forall x :: p(x) ==> W(a, x) == W(b, x)
    ensures Mass(a, p) == Mass(b, p)
  {
    var s := a.Keys + b.Keys;
    MassOver(a, p, s);
    MassOver(b, p, s);
    TotalCongruent(s, x => if p(x) then W(a, x) else 0, x => if p(x) then W(b, x) else 0);
  }

  lemma MassSame<T(!new)>(z: ZSet<T>, p: T -> bool, q: T -> bool)
    requires forall x :: x in z ==> (p(x) <==> q(x))
    ensures Mass(z, p) == Mass(z, q)
  {
    MassOver(z, p, z.Keys);
    MassOver(z, q, z.Keys);
    TotalCongruent(z.Keys, x => if p(x) then W(z, x) else 0, x => if q(x) then W(z, x) else 0);
  }

  lemma MassSign<T(!new)>(z: ZSet<T>, p: T -> bool)
    requires forall x :: x in z && p(x) ==> z[x] >= 0
    ensures Mass(z, p) >= 0
    ensures Mass(z, p) > 0 <==> exists x :: x in z && p(x) && z[x] > 0
  {
    TotalSign(z.Keys, x => if p(x) then W(z, x) else 0);
  }
}

// Rows and their values. DuckDB's typed values are abstracted to NULL and
// integers; booleans are the integers 0 and 1.
module Rows {
  datatype Option<T> = None | Some(value: T)

  datatype Value = Null | Val(v: int)

  type Row = seq<Value>

  function Nulls(n: nat): (r: Row)
    ensures |r| == n
    ensures forall i :: 0 <= i < n ==> r[i] == Null
  {
    seq(n, _ => Null)
  }
}
