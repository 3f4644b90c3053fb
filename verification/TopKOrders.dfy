// In which order a batch is visited: a hash map fixes none. What a visit can
// do to the window in the worst order, by counting rows
// (include/dbsp_duckdb_types.hpp).
module Counting {
  // How many rows of m satisfy p.
  ghost function Count<T(!new)>(m: multiset<T>, p: T -> bool): (n: nat)
    ensures n <= |m|
    decreases |m|
  {
    if m == multiset{} then 0 else var x :| x in m; Bit(p(x)) + Count(m - multiset{x}, p)
  }

  function Bit(b: bool): (n: nat) {
    if b then 1 else 0
  }

  lemma Counted<T(!new)>(m: multiset<T>, p: T -> bool) returns (x: T)
    requires m != multiset{}
    ensures x in m && Count(m, p) == Bit(p(x)) + Count(m - multiset{x}, p)
  {
    x :| x in m && Count(m, p) == Bit(p(x)) + Count(m - multiset{x}, p);
  }

  lemma {:induction false} CountRemove<T(!new)>(m: multiset<T>, p: T -> bool, x: T)
    requires x in m
    ensures Count(m, p) == Bit(p(x)) + Count(m - multiset{x}, p)
    decreases |m|
  {
    var y := Counted(m, p);
    if y != x {
      var rest := m - multiset{y} - multiset{x};
      assert m - multiset{x} - multiset{y} == rest;
      CountRemove(m - multiset{y}, p, x);
      CountRemove(m - multiset{x}, p, y);
    }
  }

  lemma CountAdd<T(!new)>(m: multiset<T>, p: T -> bool, x: T)
    ensures Count(m + multiset{x}, p) == Count(m, p) + Bit(p(x))
  {
    CountRemove(m + multiset{x}, p, x);
    assert m + multiset{x} - multiset{x} == m;
  }

  lemma {:induction false} CountPlus<T(!new)>(a: multiset<T>, b: multiset<T>, p: T -> bool)
    ensures Count(a + b, p) == Count(a, p) + Count(b, p)
    decreases |b|
  {
    if b == multiset{} {
      assert a + b == a;
    } else {
      var x :| x in b;
      var rest := b - multiset{x};
      assert a + b == a + rest + multiset{x} && b == rest + multiset{x};
      CountPlus(a, rest, p);
      CountAdd(a + rest, p, x);
      CountAdd(rest, p, x);
    }
  }

  lemma {:induction false} CountNone<T(!new)>(m: multiset<T>, p: T -> bool)
    requires forall x :: x in m ==> !p(x)
    ensures Count(m, p) == 0
    decreases |m|
  {
    if m != multiset{} {
      var x :| x in m;
      CountRemove(m, p, x);
      CountNone(m - multiset{x}, p);
    }
  }

  lemma {:induction false} CountAll<T(!new)>(m: multiset<T>, p: T -> bool)
    requires forall x :: x in m ==> p(x)
    ensures Count(m, p) == |m|
    decreases |m|
  {
    if m != multiset{} {
      var x :| x in m;
      CountRemove(m, p, x);
      CountAll(m - multiset{x}, p);
    }
  }

  lemma CountSome<T(!new)>(m: multiset<T>, p: T -> bool, x: T)
    requires x in m && p(x)
    ensures Count(m, p) >= 1
  {
    CountRemove(m, p, x);
  }

  lemma {:induction false} CountImplies<T(!new)>(m: multiset<T>, p: T -> bool, q: T -> bool)
    requires forall x :: x in m && p(x) ==> q(x)
    ensures Count(m, p) <= Count(m, q)
    decreases |m|
  {
    if m != multiset{} {
      var x :| x in m;
      CountRemove(m, p, x);
      CountRemove(m, q, x);
      CountImplies(m - multiset{x}, p, q);
    }
  }
}

module VisitingOrders {
  import opened Counting
  import opened Sorting
  import opened TopKWindow

  function UpTo<T>(y: T, lt: Order<T>): T -> bool {
    (x: T) => !lt(y, x)
  }

  function Below<T>(y: T, lt: Order<T>): T -> bool {
    (x: T) => lt(x, y)
  }

  function Above<T>(y: T, lt: Order<T>): T -> bool {
    (x: T) => lt(y, x)
  }

  // ---- counting in a sorted window ----

  ghost function Low<T(!new)>(w: seq<T>, y: T, lt: Order<T>): (n: nat)
    ensures n <= |w|
  {
    Count(multiset(w), UpTo(y, lt))
  }

  lemma LowPush<T(!new)>(w: seq<T>, x: T, y: T, lt: Order<T>)
    ensures Low(w + [x], y, lt) == Low(w, y, lt) + Bit(!lt(y, x))
  {
    assert multiset(w + [x]) == multiset(w) + multiset{x};
    CountAdd(multiset(w), UpTo(y, lt), x);
  }

  lemma LowPop<T(!new)>(w: seq<T>, y: T, lt: Order<T>)
    requires w != []
    ensures Low(w, y, lt) == Low(w[..|w| - 1], y, lt) + Bit(!lt(y, w[|w| - 1]))
  {
    assert w == w[..|w| - 1] + [w[|w| - 1]];
    LowPush(w[..|w| - 1], w[|w| - 1], y, lt);
  }

  lemma LowAll<T(!new)>(w: seq<T>, y: T, lt: Order<T>)
    requires TotalOrder(lt) && Sorted(w, lt) && w != [] && !lt(y, w[|w| - 1])
    ensures Low(w, y, lt) == |w| && forall x :: x in w ==> !lt(y, x)
  {
    LastIsMax(w, lt);
    forall x | x in multiset(w) ensures UpTo(y, lt)(x) {
      assert x in w;
    }
    CountAll(multiset(w), UpTo(y, lt));
  }

  lemma LowSplit<T(!new)>(w: seq<T>, y: T, lt: Order<T>, i: nat)
    requires i <= |w|
    ensures Low(w, y, lt) == Low(w[..i], y, lt) + Low(w[i..], y, lt)
  {
    assert w == w[..i] + w[i..];
    CountPlus(multiset(w[..i]), multiset(w[i..]), UpTo(y, lt));
  }

  lemma LowBeyond<T(!new)>(w: seq<T>, y: T, lt: Order<T>, i: nat)
    requires TotalOrder(lt) && Sorted(w, lt) && i < |w| && lt(y, w[i])
    ensures Low(w, y, lt) <= i
  {
    LowSplit(w, y, lt, i);
    var rest := w[i..];
    forall x | x in multiset(rest) ensures !UpTo(y, lt)(x) {
      var j :| 0 <= j < |rest| && rest[j] == x;
      assert !lt(w[i + j], w[i]);
      assert x == w[i] || lt(w[i], x);
    }
    CountNone(multiset(rest), UpTo(y, lt));
  }

  lemma LowWithin<T(!new)>(w: seq<T>, y: T, lt: Order<T>, i: nat)
    requires TotalOrder(lt) && Sorted(w, lt) && i < |w| && !lt(y, w[i])
    ensures Low(w, y, lt) > i
  {
    var low := w[..i + 1];
    assert Low(w, y, lt) >= Low(low, y, lt) by {
      LowSplit(w, y, lt, i + 1);
    }
    assert low[|low| - 1] == w[i];
    LowAll(low, y, lt);
  }

  // The counted rows of a sorted window are its first ones.
  lemma LowIsPrefix<T(!new)>(w: seq<T>, y: T, lt: Order<T>, i: nat)
    requires TotalOrder(lt) && Sorted(w, lt) && i < |w|
    ensures i < Low(w, y, lt) <==> !lt(y, w[i])
  {
    if lt(y, w[i]) {
      LowBeyond(w, y, lt, i);
    } else {
      LowWithin(w, y, lt, i);
    }
  }

  lemma LowInserted<T(!new)>(w: seq<T>, row: T, y: T, lt: Order<T>)
    requires TotalOrder(lt) && Sorted(w, lt)
    ensures Low(Place(w, row, lt), y, lt) == Low(w, y, lt) + Bit(!lt(y, row))
  {
    PlaceMembers(w, row, lt);
    CountAdd(multiset(w), UpTo(y, lt), row);
  }

  lemma LowRemoved<T(!new)>(w: seq<T>, row: T, y: T, lt: Order<T>)
    requires row in w
    ensures Low(w, y, lt) == Low(RemoveFirst(w, row), y, lt) + Bit(!lt(y, row))
  {
    Removed(w, row);
    CountRemove(multiset(w), UpTo(y, lt), row);
  }

  // ---- the rows a batch takes out and puts in ----

  type Changes<T> = seq<Change<T>>

  function Chunk<T(==)>(row: T, n: nat): (m: multiset<T>)
    ensures |m| == n
  {
    multiset{}[row := n]
  }

  function Deleted<T(==)>(changes: Changes<T>): multiset<T> {
    if changes == [] then multiset{}
    else
      var c := changes[|changes| - 1];
      Deleted(changes[..|changes| - 1]) + Chunk(c.0, if c.1 < 0 then -c.1 else 0)
  }

  function Inserted<T(==)>(changes: Changes<T>): multiset<T> {
    if changes == [] then multiset{}
    else
      var c := changes[|changes| - 1];
      Inserted(changes[..|changes| - 1]) + Chunk(c.0, if c.1 > 0 then c.1 else 0)
  }

  lemma ChunkCount<T(!new)>(row: T, n: nat, p: T -> bool)
    ensures Count(Chunk(row, n), p) == if p(row) then n else 0
  {
    if p(row) {
      CountAll(Chunk(row, n), p);
    } else {
      CountNone(Chunk(row, n), p);
    }
  }

  // ---- what a row of the log tells about the window ----

  // While a row up to y is in the log, the window has lost rows up to y only
  // by deletion, and holds rows beyond y only by insertion into a window
  // that was not full.
  ghost predicate Displaced<T(!new)>(w: seq<T>, o: multiset<T>, cap: nat, y: T, deleted: nat, inserted: nat, lt: Order<T>) {
    && Low(w, y, lt) + deleted >= cap
    && |w| <= Low(w, y, lt) + inserted
    && (Low(w, y, lt) < |w| ==> |w| <= cap)
  }

  ghost predicate Logged<T(!new)>(o: multiset<T>, y: T, lt: Order<T>) {
    exists z :: z in o && !lt(y, z)
  }

  ghost predicate Tracked<T(!new)>(w: seq<T>, o: multiset<T>, cap: nat, y: T, deleted: nat, inserted: nat, lt: Order<T>) {
    Logged(o, y, lt) ==> Displaced(w, o, cap, y, deleted, inserted, lt)
  }

  lemma TrackedAtStart<T(!new)>(w: seq<T>, o: multiset<T>, cap: nat, y: T, lt: Order<T>)
    requires TotalOrder(lt) && Sorted(w, lt) && OrderOk(w, o, lt) && Tight(w, o, cap)
    ensures Tracked(w, o, cap, y, 0, 0, lt)
  {
    if Logged(o, y, lt) {
      var z :| z in o && !lt(y, z);
      forall x | x in multiset(w) ensures UpTo(y, lt)(x) {
        assert x in w;
      }
      CountAll(multiset(w), UpTo(y, lt));
    }
  }

  // The last row of a sorted window is up to y exactly if all of it is.
  lemma LastDecides<T(!new)>(w: seq<T>, y: T, lt: Order<T>)
    requires TotalOrder(lt) && Sorted(w, lt) && w != []
    ensures !lt(y, w[|w| - 1]) <==> Low(w, y, lt) == |w|
  {
    LowIsPrefix(w, y, lt, |w| - 1);
  }

  // A row into the log: the full window is not beyond it.
  lemma LoggedInsert<T(!new)>(w: seq<T>, cap: nat, row: T, y: T, lt: Order<T>)
    requires TotalOrder(lt) && Sorted(w, lt) && |w| >= cap >= 1 && !lt(row, w[|w| - 1])
    ensures !lt(y, row) ==> Low(w, y, lt) == |w|
  {
    LastDecides(w, y, lt);
  }

  // A row into the window: with no room, the last row goes to the log.
  lemma WindowInsert<T(!new)>(w: seq<T>, o: multiset<T>, cap: nat, row: T, y: T, lt: Order<T>) returns (last: T)
    requires TotalOrder(lt) && Sorted(w, lt) && cap >= 1 && (|w| < cap || lt(row, w[|w| - 1]))
    ensures var r := InsertOne(w, o, cap, row, lt); var full := |w| >= cap;
            && |r.0| == (if full then |w| else |w| + 1) && r.1 == (if full then o + multiset{last} else o)
            && Low(r.0, y, lt) + (if full then Bit(!lt(y, last)) else 0) == Low(w, y, lt) + Bit(!lt(y, row))
            && (!lt(y, last) ==> Low(r.0, y, lt) == |r.0|)
            && (lt(y, row) ==> lt(y, last))
  {
    var p := Place(w, row, lt);
    last := p[|p| - 1];
    PlaceMembers(w, row, lt);
    LowInserted(w, row, y, lt);
    LastDecides(p, y, lt);
    LowPop(p, y, lt);
    if lt(y, row) {
      LastIsMax(p, lt);
      assert row in p;
    }
  }

  lemma TrackedInsert<T(!new)>(w: seq<T>, o: multiset<T>, cap: nat, row: T, y: T, deleted: nat, inserted: nat, lt: Order<T>)
    requires TotalOrder(lt) && Sorted(w, lt) && cap >= 1 && Tracked(w, o, cap, y, deleted, inserted, lt)
    ensures var r := InsertOne(w, o, cap, row, lt); Tracked(r.0, r.1, cap, y, deleted, inserted + Bit(lt(y, row)), lt)
  {
    var r := InsertOne(w, o, cap, row, lt);
    if Logged(r.1, y, lt) {
      var z :| z in r.1 && !lt(y, z);
      if |w| >= cap && !lt(row, w[|w| - 1]) {
        LoggedInsert(w, cap, row, y, lt);
        assert z in o || z == row;
      } else {
        var last := WindowInsert(w, o, cap, row, y, lt);
        assert z in o || z == last;
        if z in o && |w| >= cap {
          LastDecides(w, y, lt);
        }
      }
    }
  }

  lemma TrackedDelete<T(!new)>(w: seq<T>, o: multiset<T>, cap: nat, row: T, y: T, deleted: nat, inserted: nat, lt: Order<T>)
    requires TotalOrder(lt) && Sorted(w, lt) && Tracked(w, o, cap, y, deleted, inserted, lt)
    ensures var r := DeleteOne(w, o, row); Tracked(r.0, r.1, cap, y, deleted + Bit(!lt(y, row)), inserted, lt)
  {
    var r := DeleteOne(w, o, row);
    if Logged(r.1, y, lt) {
      var z :| z in r.1 && !lt(y, z);
      assert z in o;
      if row in w {
        Removed(w, row);
        LowRemoved(w, row, y, lt);
      }
    }
  }

  lemma {:induction false} TrackedRepeat<T(!new)>(w: seq<T>, o: multiset<T>, cap: nat, row: T, n: int, y: T, deleted: nat,
                                           inserted: nat, lt: Order<T>)
    requires TotalOrder(lt) && Sorted(w, lt) && cap >= 1 && Tracked(w, o, cap, y, deleted, inserted, lt)
    ensures var r := Repeat(w, o, cap, row, n, lt);
            && Sorted(r.0, lt)
            && Tracked(r.0, r.1, cap, y, deleted + (if n < 0 && !lt(y, row) then -n else 0),
                       inserted + (if n > 0 && lt(y, row) then n else 0), lt)
    decreases if n < 0 then -n else n
  {
    if n > 0 {
      var r := InsertOne(w, o, cap, row, lt);
      InsertedRows(w, o, cap, row, lt);
      TrackedInsert(w, o, cap, row, y, deleted, inserted, lt);
      TrackedRepeat(r.0, r.1, cap, row, n - 1, y, deleted, inserted + Bit(lt(y, row)), lt);
    } else if n < 0 {
      var r := DeleteOne(w, o, row);
      RemovedSorted(w, row, lt);
      TrackedDelete(w, o, cap, row, y, deleted, inserted, lt);
      TrackedRepeat(r.0, r.1, cap, row, n + 1, y, deleted + Bit(!lt(y, row)), inserted, lt);
    }
  }

  lemma {:induction false} LastDeleted<T(!new)>(changes: Changes<T>, p: T -> bool)
    requires changes != []
    ensures var n := |changes| - 1; var c := changes[n];
            Count(Deleted(changes), p) == Count(Deleted(changes[..n]), p) + if c.1 < 0 && p(c.0) then -c.1 else 0
  {
    var c := changes[|changes| - 1];
    var d := if c.1 < 0 then -c.1 else 0;
    assert Deleted(changes) == Deleted(changes[..|changes| - 1]) + Chunk(c.0, d);
    CountPlus(Deleted(changes[..|changes| - 1]), Chunk(c.0, d), p);
    ChunkCount(c.0, d, p);
  }

  lemma {:induction false} LastInserted<T(!new)>(changes: Changes<T>, p: T -> bool)
    requires changes != []
    ensures var n := |changes| - 1; var c := changes[n];
            Count(Inserted(changes), p) == Count(Inserted(changes[..n]), p) + if c.1 > 0 && p(c.0) then c.1 else 0
  {
    var c := changes[|changes| - 1];
    var i := if c.1 > 0 then c.1 else 0;
    assert Inserted(changes) == Inserted(changes[..|changes| - 1]) + Chunk(c.0, i);
    CountPlus(Inserted(changes[..|changes| - 1]), Chunk(c.0, i), p);
    ChunkCount(c.0, i, p);
  }

  // Whatever the order of the batch.
  lemma {:induction false} TrackedVisit<T(!new)>(w: seq<T>, o: multiset<T>, cap: nat, changes: Changes<T>, y: T, lt: Order<T>)
    requires TotalOrder(lt) && cap >= 1 && Sorted(w, lt) && OrderOk(w, o, lt) && Tight(w, o, cap)
    ensures var r := Visit(w, o, cap, changes, lt);
            && Sorted(r.0, lt)
            && Tracked(r.0, r.1, cap, y, Count(Deleted(changes), UpTo(y, lt)), Count(Inserted(changes), Above(y, lt)), lt)
  {
    if changes == [] {
      TrackedAtStart(w, o, cap, y, lt);
    } else {
      var n := |changes| - 1;
      var before := changes[..n];
      TrackedVisit(w, o, cap, before, y, lt);
      var r := Visit(w, o, cap, before, lt);
      LastDeleted(changes, UpTo(y, lt));
      LastInserted(changes, Above(y, lt));
      TrackedRepeat(r.0, r.1, cap, changes[n].0, changes[n].1, y, Count(Deleted(before), UpTo(y, lt)),
              Count(Inserted(before), Above(y, lt)), lt);
    }
  }

  // ---- a batch as a Z-set ----

  // One weight per row, none of them 0.
  ghost predicate IsDelta<T(!new)>(b: Changes<T>) {
    && (forall c :: c in b ==> c.1 != 0 && multiset(b)[c] == 1)
    && forall c, d :: c in b && d in b && c.0 == d.0 ==> c == d
  }

  lemma TwiceCounts<T>(b: seq<T>, i: nat, j: nat)
    requires i < j < |b| && b[i] == b[j]
    ensures multiset(b)[b[i]] >= 2
  {
    assert b == b[..i] + [b[i]] + b[i + 1..j] + [b[j]] + b[j + 1..];
  }

  lemma DistinctRows<T(!new)>(b: Changes<T>, i: nat, j: nat)
    requires IsDelta(b) && i < j < |b|
    ensures b[i].0 != b[j].0
  {
    assert b[i] in b && b[j] in b;
    if b[i] == b[j] {
      TwiceCounts(b, i, j);
    }
  }

  lemma {:induction false} AppliedIs<T(!new)>(input: multiset<T>, changes: Changes<T>, x: T)
    requires Deletable(input, changes)
    ensures Applied(input, changes)[x] + Deleted(changes)[x] == input[x] + Inserted(changes)[x]
  {
    if changes != [] {
      DeletablePrefix(input, changes);
      AppliedIs(input, changes[..|changes| - 1], x);
    }
  }

  lemma {:induction false} AmountsMembers<T(!new)>(changes: Changes<T>, x: T)
    ensures x in Inserted(changes) <==> exists c :: c in changes && c.0 == x && c.1 > 0
    ensures x in Deleted(changes) <==> exists c :: c in changes && c.0 == x && c.1 < 0
  {
    if changes != [] {
      var n := |changes| - 1;
      var before := changes[..n];
      AmountsMembers(before, x);
      assert changes == before + [changes[n]];
      assert forall c :: c in changes <==> c in before || c == changes[n];
    }
  }

  // What a Z-set inserts is in the new input.
  lemma InsertedStays<T(!new)>(input: multiset<T>, changes: Changes<T>)
    requires IsDelta(changes) && Deletable(input, changes)
    ensures Inserted(changes) <= Applied(input, changes)
  {
    forall x ensures Inserted(changes)[x] <= Applied(input, changes)[x] {
      AppliedIs(input, changes, x);
      AmountsMembers(changes, x);
    }
  }

  lemma Least<T(!new)>(o: multiset<T>, lt: Order<T>) returns (y: T)
    requires TotalOrder(lt) && o != multiset{}
    ensures y in o && forall z :: z in o ==> !lt(z, y)
  {
    var s := SortedListing(o, lt);
    assert |s| == |multiset(s)|;
    y := s[0];
    assert y in multiset(s);
    forall z | z in o ensures !lt(z, y) {
      assert z in multiset(s);
    }
  }

  // ---- when no order of a batch can hide a row ----

  // The row y can end up in the log, although it belongs to the first
  // `reach` rows: more deletions up to y than the window can spare, enough
  // insertions beyond y to keep the window full, and few enough below y.
  ghost predicate Exposes<T(!new)>(deleted: multiset<T>, inserted: multiset<T>, cap: nat, cap1: nat, reach: nat, y: T,
                            lt: Order<T>) {
    && cap1 <= cap
    && Count(deleted, UpTo(y, lt)) + reach > cap
    && Count(inserted, Above(y, lt)) + reach > cap1
    && Count(inserted, Below(y, lt)) < reach
  }

  lemma FewBelow<T(!new)>(w: seq<T>, o: multiset<T>, inserted: multiset<T>, y: T, lt: Order<T>)
    requires TotalOrder(lt) && inserted <= multiset(w) + o && forall z :: z in o ==> !lt(z, y)
    ensures Count(inserted, Below(y, lt)) <= Low(w, y, lt)
  {
    var rest := multiset(w) + o - inserted;
    assert inserted + rest == multiset(w) + o;
    CountPlus(inserted, rest, Below(y, lt));
    CountPlus(multiset(w), o, Below(y, lt));
    CountNone(o, Below(y, lt));
    CountImplies(multiset(w), Below(y, lt), UpTo(y, lt));
  }

  lemma LowMonotone<T(!new)>(w: seq<T>, y: T, z: T, lt: Order<T>)
    requires TotalOrder(lt) && !lt(z, y)
    ensures Low(w, y, lt) <= Low(w, z, lt)
  {
    forall x | x in multiset(w) && UpTo(y, lt)(x) ensures UpTo(z, lt)(x) {
      assert z == y || lt(y, z);
      assert lt(z, x) ==> lt(y, x);
    }
    CountImplies(multiset(w), UpTo(y, lt), UpTo(z, lt));
  }

  // If the window stays filled and a row of the log belongs to the first
  // `reach` rows, then some row is exposed.
  lemma HiddenIsExposed<T(!new)>(w: seq<T>, o: multiset<T>, cap: nat, changes: Changes<T>, cap1: nat, reach: nat,
                          lt: Order<T>, hidden: T)
    returns (y: T)
    requires TotalOrder(lt) && cap >= 1 && Sorted(w, lt) && OrderOk(w, o, lt) && Tight(w, o, cap)
    requires IsDelta(changes) && Deletable(multiset(w) + o, changes) && reach <= cap1
    requires var r := Visit(w, o, cap, changes, lt);
             |r.0| >= cap1 && hidden in r.1 && Low(r.0, hidden, lt) < reach
    ensures Exposes(Deleted(changes), Inserted(changes), cap, cap1, reach, y, lt)
  {
    var r := Visit(w, o, cap, changes, lt);
    y := Least(r.1, lt);
    LowMonotone(r.0, y, hidden, lt);
    TrackedVisit(w, o, cap, changes, y, lt);
    assert y in r.1 && !lt(y, y);
    assert Displaced(r.0, r.1, cap, y, Count(Deleted(changes), UpTo(y, lt)), Count(Inserted(changes), Above(y, lt)), lt);
    Visited(w, o, cap, changes, lt);
    InsertedStays(multiset(w) + o, changes);
    FewBelow(r.0, r.1, Inserted(changes), y, lt);
  }

  // ---- a window, a log and an order that hide an exposed row ----

  function Pick<T>(b: Changes<T>, p: Change<T> -> bool, keep: bool): Changes<T> {
    if b == [] then []
    else
      var c := b[|b| - 1];
      Pick(b[..|b| - 1], p, keep) + if p(c) == keep then [c] else []
  }

  lemma {:induction false} PickSplits<T(!new)>(b: Changes<T>, p: Change<T> -> bool)
    ensures multiset(Pick(b, p, true)) + multiset(Pick(b, p, false)) == multiset(b)
  {
    if b != [] {
      var n := |b| - 1;
      var c := b[n];
      PickSplits(b[..n], p);
      assert b == b[..n] + [c];
      assert multiset(Pick(b, p, p(c))) == multiset(Pick(b[..n], p, p(c))) + multiset{c};
      assert Pick(b, p, !p(c)) == Pick(b[..n], p, !p(c));
    }
  }

  lemma {:induction false} Picked<T(!new)>(b: Changes<T>, p: Change<T> -> bool, keep: bool)
    ensures forall c :: c in Pick(b, p, keep) ==> c in b && p(c) == keep
  {
    if b != [] {
      Picked(b[..|b| - 1], p, keep);
    }
  }

  lemma ConcatLast<T>(a: seq<T>, b: seq<T>)
    requires b != []
    ensures var n := |b| - 1; (a + b)[..|a + b| - 1] == a + b[..n] && (a + b)[|a + b| - 1] == b[n]
  {
  }

  lemma {:induction false} DeletedAt<T(!new)>(a: Changes<T>, b: Changes<T>, x: T)
    ensures Deleted(a + b)[x] == Deleted(a)[x] + Deleted(b)[x]
  {
    if b == [] {
      assert a + b == a;
    } else {
      DeletedAt(a, b[..|b| - 1], x);
      ConcatLast(a, b);
    }
  }

  lemma {:induction false} InsertedAt<T(!new)>(a: Changes<T>, b: Changes<T>, x: T)
    ensures Inserted(a + b)[x] == Inserted(a)[x] + Inserted(b)[x]
  {
    if b == [] {
      assert a + b == a;
    } else {
      InsertedAt(a, b[..|b| - 1], x);
      ConcatLast(a, b);
    }
  }

  lemma AmountsConcat<T(!new)>(a: Changes<T>, b: Changes<T>)
    ensures Deleted(a + b) == Deleted(a) + Deleted(b) && Inserted(a + b) == Inserted(a) + Inserted(b)
  {
    forall x ensures Deleted(a + b)[x] == (Deleted(a) + Deleted(b))[x]
             ensures Inserted(a + b)[x] == (Inserted(a) + Inserted(b))[x]
    {
      DeletedAt(a, b, x);
      InsertedAt(a, b, x);
    }
  }

  lemma AmountsInsert<T(!new)>(a: Changes<T>, c: Change<T>, b: Changes<T>)
    ensures Deleted(a + [c] + b) == Deleted(a + b + [c]) && Inserted(a + [c] + b) == Inserted(a + b + [c])
  {
    AmountsConcat(a + [c], b);
    AmountsConcat(a, [c]);
    AmountsConcat(a + b, [c]);
    AmountsConcat(a, b);
  }

  // The amounts do not depend on the order.
  lemma {:induction false} AmountsPermute<T(!new)>(a: Changes<T>, b: Changes<T>)
    requires multiset(a) == multiset(b)
    ensures Deleted(a) == Deleted(b) && Inserted(a) == Inserted(b)
  {
    assert |a| == |multiset(a)| == |multiset(b)| == |b|;
    if a != [] {
      var n := |a| - 1;
      var c := a[n];
      assert c in multiset(b);
      var i :| 0 <= i < |b| && b[i] == c;
      var rest := b[..i] + b[i + 1..];
      assert a == a[..n] + [c];
      assert b == b[..i] + [c] + b[i + 1..];
      assert multiset(a[..n]) == multiset(a) - multiset{c} == multiset(rest);
      AmountsPermute(a[..n], rest);
      AmountsInsert(b[..i], c, b[i + 1..]);
      AmountsConcat(rest, [c]);
      AmountsConcat(a[..n], [c]);
    }
  }

  lemma {:induction false} VisitConcat<T(!new)>(w: seq<T>, o: multiset<T>, cap: nat, a: Changes<T>, b: Changes<T>, lt: Order<T>)
    requires cap >= 1
    ensures var r := Visit(w, o, cap, a, lt); Visit(w, o, cap, a + b, lt) == Visit(r.0, r.1, cap, b, lt)
  {
    if b == [] {
      assert a + b == a;
    } else {
      var n := |b| - 1;
      VisitConcat(w, o, cap, a, b[..n], lt);
      assert (a + b)[..|a + b| - 1] == a + b[..n] && (a + b)[|a + b| - 1] == b[n];
    }
  }

  lemma {:induction false} Untouched<T(!new)>(input: multiset<T>, changes: Changes<T>, row: T)
    requires forall c :: c in changes ==> c.0 != row
    ensures Applied(input, changes)[row] == input[row]
  {
    if changes != [] {
      assert changes[|changes| - 1] in changes;
      Untouched(input, changes[..|changes| - 1], row);
    }
  }

  lemma {:induction false} AtLeastChange<T(!new)>(changes: Changes<T>, i: nat)
    requires i < |changes|
    ensures Deleted(changes)[changes[i].0] >= -changes[i].1
  {
    var n := |changes| - 1;
    if i < n {
      AtLeastChange(changes[..n], i);
    }
  }

  // Any order of a Z-set is deletable from an input that holds its deletions.
  lemma AnyOrderDeletable<T(!new)>(input: multiset<T>, changes: Changes<T>)
    requires IsDelta(changes) && Deleted(changes) <= input
    ensures Deletable(input, changes)
  {
    forall i | 0 <= i < |changes| ensures Applied(input, changes[..i])[changes[i].0] + changes[i].1 >= 0 {
      forall c | c in changes[..i] ensures c.0 != changes[i].0 {
        var j :| 0 <= j < i && changes[j] == c;
        DistinctRows(changes, j, i);
      }
      Untouched(input, changes[..i], changes[i].0);
      AtLeastChange(changes, i);
    }
  }

  // ---- deletions alone, insertions alone ----

  function Left(have: nat, gone: nat): nat {
    if have < gone then 0 else have - gone
  }

  lemma {:induction false} RepeatDeletes<T(!new)>(w: seq<T>, o: multiset<T>, cap: nat, row: T, n: nat, lt: Order<T>, x: T)
    requires cap >= 1
    ensures multiset(Repeat(w, o, cap, row, 0 - n, lt).0)[x] == Left(multiset(w)[x], if x == row then n else 0)
    decreases n
  {
    if n > 0 {
      var r := DeleteOne(w, o, row);
      if row in w {
        Removed(w, row);
      } else {
        assert row !in multiset(w);
      }
      RepeatDeletes(r.0, r.1, cap, row, n - 1, lt, x);
    }
  }

  lemma DeletedLast<T(!new)>(changes: Changes<T>, x: T)
    requires changes != []
    ensures var n := |changes| - 1; var c := changes[n];
            Deleted(changes)[x] == Deleted(changes[..n])[x] + if c.0 == x && c.1 < 0 then -c.1 else 0
  {
  }

  // Deletions take the window's copies of a row first.
  lemma {:induction false} DeletionsTake<T(!new)>(w: seq<T>, o: multiset<T>, cap: nat, changes: Changes<T>, lt: Order<T>, x: T)
    requires cap >= 1 && forall c :: c in changes ==> c.1 <= 0
    ensures multiset(Visit(w, o, cap, changes, lt).0)[x] == Left(multiset(w)[x], Deleted(changes)[x])
  {
    if changes != [] {
      var n := |changes| - 1;
      assert changes[n] in changes;
      DeletionsTake(w, o, cap, changes[..n], lt, x);
      DeletedLast(changes, x);
      var r := Visit(w, o, cap, changes[..n], lt);
      RepeatDeletes(r.0, r.1, cap, changes[n].0, -changes[n].1, lt, x);
    }
  }

  lemma {:induction false} RepeatFits<T(!new)>(w: seq<T>, o: multiset<T>, cap: nat, row: T, n: nat, lt: Order<T>)
    requires TotalOrder(lt) && cap >= 1 && |w| <= cap && Sorted(w, lt)
    ensures var r := Repeat(w, o, cap, row, n, lt);
            Sorted(r.0, lt) && |r.0| == if |w| + n < cap then |w| + n else cap
    decreases n
  {
    if n > 0 {
      var r := InsertOne(w, o, cap, row, lt);
      PlaceMembers(w, row, lt);
      InsertedRows(w, o, cap, row, lt);
      RepeatFits(r.0, r.1, cap, row, n - 1, lt);
    }
  }

  // Insertions fill the window up to its cap.
  lemma {:induction false} InsertionsFill<T(!new)>(w: seq<T>, o: multiset<T>, cap: nat, changes: Changes<T>, lt: Order<T>)
    requires TotalOrder(lt) && cap >= 1 && |w| <= cap && Sorted(w, lt) && forall c :: c in changes ==> c.1 >= 0
    ensures var r := Visit(w, o, cap, changes, lt); var n := |w| + |Inserted(changes)|;
            Sorted(r.0, lt) && |r.0| == if n < cap then n else cap
  {
    if changes != [] {
      var n := |changes| - 1;
      assert changes[n] in changes;
      InsertionsFill(w, o, cap, changes[..n], lt);
      var r := Visit(w, o, cap, changes[..n], lt);
      RepeatFits(r.0, r.1, cap, changes[n].0, changes[n].1, lt);
    }
  }

  lemma LogGrows<T(!new)>(w: seq<T>, o: multiset<T>, cap: nat, row: T, y: T, lt: Order<T>)
    requires cap >= 1 && y in o
    ensures y in InsertOne(w, o, cap, row, lt).1
  {
  }

  lemma InsertBeyond<T(!new)>(w: seq<T>, o: multiset<T>, cap: nat, row: T, y: T, lt: Order<T>)
    requires TotalOrder(lt) && cap >= 1 && Sorted(w, lt) && lt(y, row)
    ensures Low(InsertOne(w, o, cap, row, lt).0, y, lt) == Low(w, y, lt)
  {
    if |w| < cap || lt(row, w[|w| - 1]) {
      var last := WindowInsert(w, o, cap, row, y, lt);
    }
  }

  lemma {:induction false} RepeatBeyond<T(!new)>(w: seq<T>, o: multiset<T>, cap: nat, row: T, n: nat, y: T, lt: Order<T>)
    requires TotalOrder(lt) && cap >= 1 && Sorted(w, lt) && lt(y, row) && y in o
    ensures var r := Repeat(w, o, cap, row, n, lt); Sorted(r.0, lt) && Low(r.0, y, lt) == Low(w, y, lt) && y in r.1
    decreases n
  {
    if n > 0 {
      var r := InsertOne(w, o, cap, row, lt);
      InsertedRows(w, o, cap, row, lt);
      LogGrows(w, o, cap, row, y, lt);
      InsertBeyond(w, o, cap, row, y, lt);
      RepeatBeyond(r.0, r.1, cap, row, n - 1, y, lt);
    }
  }

  // Insertions beyond y leave y in the log and the rows up to y alone.
  lemma {:induction false} InsertionsBeyond<T(!new)>(w: seq<T>, o: multiset<T>, cap: nat, changes: Changes<T>, y: T, lt: Order<T>)
    requires TotalOrder(lt) && cap >= 1 && Sorted(w, lt) && y in o && forall c :: c in changes ==> c.1 >= 0 && lt(y, c.0)
    ensures var r := Visit(w, o, cap, changes, lt); Sorted(r.0, lt) && Low(r.0, y, lt) == Low(w, y, lt) && y in r.1
  {
    if changes != [] {
      var n := |changes| - 1;
      assert changes[n] in changes;
      InsertionsBeyond(w, o, cap, changes[..n], y, lt);
      var r := Visit(w, o, cap, changes[..n], lt);
      RepeatBeyond(r.0, r.1, cap, changes[n].0, changes[n].1, y, lt);
    }
  }

  // ---- splitting an input in order ----

  // Two splits of one input in order, of one size, are one split.
  lemma OneSplit<T(!new)>(w: seq<T>, o: multiset<T>, low: multiset<T>, high: multiset<T>, lt: Order<T>)
    requires TotalOrder(lt) && Sorted(w, lt) && OrderOk(w, o, lt) && multiset(w) + o == low + high
    requires |w| == |low| && forall x, y :: x in low && y in high ==> !lt(y, x)
    ensures multiset(w) == low
  {
    var s := SortedListing(low + high, lt);
    var l := SortedListing(low, lt);
    forall x, y | x in l && y in high ensures !lt(y, x) {
      assert x in multiset(l);
    }
    WindowIsPrefix(w, o, lt, s);
    WindowIsPrefix(l, high, lt, s);
    assert |l| == |multiset(l)|;
  }

  // A listing's row at position i has at most i rows below it.
  lemma FewBelowAt<T(!new)>(s: seq<T>, i: nat, lt: Order<T>)
    requires TotalOrder(lt) && Sorted(s, lt) && i < |s|
    ensures Count(multiset(s), Below(s[i], lt)) <= i && Count(multiset(s), UpTo(s[i], lt)) > i
  {
    assert s == s[..i] + s[i..];
    CountPlus(multiset(s[..i]), multiset(s[i..]), Below(s[i], lt));
    forall x | x in multiset(s[i..]) ensures !Below(s[i], lt)(x) {
      var j :| 0 <= j < |s[i..]| && s[i..][j] == x;
      assert x == s[i + j];
    }
    CountNone(multiset(s[i..]), Below(s[i], lt));
    assert |multiset(s[..i])| == i;
    LowIsPrefix(s, s[i], lt, i);
  }

  lemma {:induction false} UpToIsBelowOrEqual<T(!new)>(m: multiset<T>, y: T, lt: Order<T>)
    requires TotalOrder(lt)
    ensures Count(m, UpTo(y, lt)) == Count(m, Below(y, lt)) + m[y]
    decreases |m|
  {
    if m != multiset{} {
      var x :| x in m;
      CountRemove(m, UpTo(y, lt), x);
      CountRemove(m, Below(y, lt), x);
      UpToIsBelowOrEqual(m - multiset{x}, y, lt);
    }
  }

  // The first row up to which a batch deletes more than `spare` rows.
  lemma PassingRow<T(!new)>(m: multiset<T>, spare: nat, y: T, lt: Order<T>) returns (z: T)
    requires TotalOrder(lt) && Count(m, UpTo(y, lt)) > spare
    ensures z in m && !lt(y, z) && Count(m, UpTo(z, lt)) > spare && Count(m, Below(z, lt)) <= spare
  {
    var s := SortedListing(m, lt);
    assert |s| == |multiset(s)|;
    z := s[spare];
    assert z in multiset(s);
    FewBelowAt(s, spare, lt);
    LowIsPrefix(s, y, lt, spare);
  }

  // ---- the hiding order: insertions below z, all deletions, the rest ----

  function IsInsertion<T>(): Change<T> -> bool {
    (c: Change<T>) => c.1 > 0
  }

  function RowBelow<T>(z: T, lt: Order<T>): Change<T> -> bool {
    (c: Change<T>) => lt(c.0, z)
  }

  ghost predicate Amounting<T(!new)>(b: Changes<T>, a: Changes<T>, d: Changes<T>, c: Changes<T>, z: T, lt: Order<T>) {
    && multiset(a + d + c) == multiset(b)
    && (forall x :: x in a ==> x.1 > 0 && lt(x.0, z))
    && (forall x :: x in d ==> x.1 <= 0)
    && forall x :: x in c ==> x.1 > 0 && !lt(x.0, z)
  }

  lemma ThreePhases<T(!new)>(b: Changes<T>, z: T, lt: Order<T>) returns (a: Changes<T>, d: Changes<T>, c: Changes<T>)
    ensures Amounting(b, a, d, c, z, lt)
  {
    var pos := Pick(b, IsInsertion(), true);
    d := Pick(b, IsInsertion(), false);
    a, c := Pick(pos, RowBelow(z, lt), true), Pick(pos, RowBelow(z, lt), false);
    PickSplits(b, IsInsertion());
    PickSplits(pos, RowBelow(z, lt));
    Picked(b, IsInsertion(), true);
    Picked(b, IsInsertion(), false);
    Picked(pos, RowBelow(z, lt), true);
    Picked(pos, RowBelow(z, lt), false);
    assert multiset(a + d + c) == multiset(a) + multiset(d) + multiset(c);
  }

  lemma OneSign<T(!new)>(changes: Changes<T>)
    ensures (forall c :: c in changes ==> c.1 > 0) ==> Deleted(changes) == multiset{}
    ensures (forall c :: c in changes ==> c.1 <= 0) ==> Inserted(changes) == multiset{}
  {
    forall x ensures x in Inserted(changes) <==> exists c :: c in changes && c.0 == x && c.1 > 0
             ensures x in Deleted(changes) <==> exists c :: c in changes && c.0 == x && c.1 < 0
    {
      AmountsMembers(changes, x);
    }
  }

  lemma PhaseAmounts<T(!new)>(b: Changes<T>, a: Changes<T>, d: Changes<T>, c: Changes<T>, z: T, lt: Order<T>)
    requires Amounting(b, a, d, c, z, lt)
    ensures Deleted(d) == Deleted(b) && Inserted(a) + Inserted(c) == Inserted(b)
    ensures Deleted(a) == multiset{} == Inserted(d)
  {
    AmountsPermute(a + d + c, b);
    AmountsConcat(a + d, c);
    AmountsConcat(a, d);
    OneSign(a);
    OneSign(d);
    OneSign(c);
  }

  lemma PhaseRows<T(!new)>(b: Changes<T>, a: Changes<T>, d: Changes<T>, c: Changes<T>, z: T, lt: Order<T>)
    requires TotalOrder(lt) && IsDelta(b) && z in Deleted(b) && Amounting(b, a, d, c, z, lt)
    ensures forall x :: x in Inserted(a) ==> lt(x, z)
    ensures forall x :: x in c ==> lt(z, x.0)
    ensures forall x :: x in Inserted(c) ==> lt(z, x)
  {
    forall x | x in Inserted(a) ensures lt(x, z) {
      AmountsMembers(a, x);
    }
    AmountsMembers(b, z);
    forall x | x in c ensures lt(z, x.0) {
      assert x in multiset(a + d + c) && x in multiset(b);
    }
    forall x | x in Inserted(c) ensures lt(z, x) {
      AmountsMembers(c, x);
    }
  }

  lemma PhaseCounts<T(!new)>(b: Changes<T>, a: Changes<T>, d: Changes<T>, c: Changes<T>, z: T, lt: Order<T>)
    requires TotalOrder(lt) && IsDelta(b) && z in Deleted(b) && Amounting(b, a, d, c, z, lt)
    ensures |Inserted(a)| == Count(Inserted(b), Below(z, lt)) && |Inserted(c)| == Count(Inserted(b), Above(z, lt))
    ensures forall x :: x in Inserted(a) ==> lt(x, z)
    ensures forall x :: x in c ==> lt(z, x.0)
  {
    PhaseAmounts(b, a, d, c, z, lt);
    PhaseRows(b, a, d, c, z, lt);
    CountSplit(Inserted(a), Inserted(c), z, lt);
    CountPlus(Inserted(a), Inserted(c), Above(z, lt));
    CountNone(Inserted(a), Above(z, lt));
    CountAll(Inserted(c), Above(z, lt));
  }

  // The deleted rows, split at z.
  lemma DeletedSplit<T(!new)>(d: Changes<T>, z: T, lt: Order<T>) returns (below: multiset<T>, rest: multiset<T>)
    requires TotalOrder(lt)
    ensures below + rest == Deleted(d) && |below| == Count(Deleted(d), Below(z, lt))
    ensures (forall x :: x in below ==> lt(x, z)) && forall x :: x in rest ==> !lt(x, z)
  {
    var d0, d1 := Pick(d, RowBelow(z, lt), true), Pick(d, RowBelow(z, lt), false);
    PickSplits(d, RowBelow(z, lt));
    assert multiset(d0 + d1) == multiset(d);
    AmountsPermute(d0 + d1, d);
    AmountsConcat(d0, d1);
    below, rest := Deleted(d0), Deleted(d1);
    forall x | x in below ensures lt(x, z) {
      PickedRows(d, true, x, z, lt);
    }
    forall x | x in rest ensures !lt(x, z) {
      PickedRows(d, false, x, z, lt);
    }
    CountSplit(below, rest, z, lt);
  }

  lemma PickedRows<T(!new)>(d: Changes<T>, keep: bool, x: T, z: T, lt: Order<T>)
    requires x in Deleted(Pick(d, RowBelow(z, lt), keep))
    ensures lt(x, z) == keep
  {
    Picked(d, RowBelow(z, lt), keep);
    AmountsMembers(Pick(d, RowBelow(z, lt), keep), x);
  }

  lemma CountSplit<T(!new)>(below: multiset<T>, rest: multiset<T>, z: T, lt: Order<T>)
    requires (forall x :: x in below ==> lt(x, z)) && forall x :: x in rest ==> !lt(x, z)
    ensures Count(below + rest, Below(z, lt)) == |below|
  {
    CountPlus(below, rest, Below(z, lt));
    CountAll(below, Below(z, lt));
    CountNone(rest, Below(z, lt));
  }

  lemma InsertionsApplied<T(!new)>(input: multiset<T>, a: Changes<T>)
    requires forall c :: c in a ==> c.1 > 0
    ensures Deletable(input, a) && Applied(input, a) == input + Inserted(a)
  {
    forall i | 0 <= i < |a| ensures a[i].1 > 0 {
      assert a[i] in a;
    }
    OneSign(a);
    forall x ensures Applied(input, a)[x] == (input + Inserted(a))[x] {
      AppliedIs(input, a, x);
    }
  }

  // After the insertions below z the window holds the first `cap` rows.
  lemma AfterInsertions<T(!new)>(w: seq<T>, o: multiset<T>, cap: nat, a: Changes<T>, low: multiset<T>, high: multiset<T>,
                          lt: Order<T>)
    requires TotalOrder(lt) && cap >= 1 && Sorted(w, lt) && OrderOk(w, o, lt) && Tight(w, o, cap) && |w| <= cap
    requires (forall c :: c in a ==> c.1 > 0) && multiset(w) + o + Inserted(a) == low + high
    requires |low| == cap && high != multiset{} && forall x, y :: x in low && y in high ==> !lt(y, x)
    ensures multiset(Visit(w, o, cap, a, lt).0) == low
  {
    var r := Visit(w, o, cap, a, lt);
    InsertionsApplied(multiset(w) + o, a);
    Visited(w, o, cap, a, lt);
    VisitedOrder(w, o, cap, a, lt);
    InsertionsFill(w, o, cap, a, lt);
    assert |w| < cap ==> |w| + |Inserted(a)| == |low + high|;
    OneSplit(r.0, r.1, low, high, lt);
  }

  lemma AfterDeletions<T(!new)>(w: seq<T>, o: multiset<T>, cap: nat, d: Changes<T>, kept: multiset<T>, lt: Order<T>)
    requires cap >= 1 && forall c :: c in d ==> c.1 <= 0
    requires forall x :: kept[x] == Left(multiset(w)[x], Deleted(d)[x])
    ensures multiset(Visit(w, o, cap, d, lt).0) == kept
  {
    forall x ensures multiset(Visit(w, o, cap, d, lt).0)[x] == kept[x] {
      DeletionsTake(w, o, cap, d, lt, x);
    }
  }

  lemma DeletableTake<T(!new)>(input: multiset<T>, a: Changes<T>, b: Changes<T>)
    requires Deletable(input, a + b)
    ensures Deletable(input, a)
  {
    forall i | 0 <= i < |a| ensures Applied(input, a[..i])[a[i].0] + a[i].1 >= 0 {
      assert (a + b)[..i] == a[..i] && (a + b)[i] == a[i];
    }
  }

  // What the deletions leave: the window lost every deleted row of the first
  // `cap`, z waits in the log.
  lemma AfterBoth<T(!new)>(w: seq<T>, o: multiset<T>, cap: nat, a: Changes<T>, d: Changes<T>, kept: multiset<T>,
                    low: multiset<T>, z: T, lt: Order<T>)
    requires TotalOrder(lt) && cap >= 1 && Sorted(w, lt) && Deletable(multiset(w) + o, a + d)
    requires (forall c :: c in d ==> c.1 <= 0) && multiset(Visit(w, o, cap, a, lt).0) == low
    requires forall x :: kept[x] == Left(low[x], Deleted(d)[x])
    requires kept[z] == 0 && (multiset(w) + o)[z] + Inserted(a + d)[z] > Deleted(a + d)[z]
    ensures var r := Visit(w, o, cap, a + d, lt); Sorted(r.0, lt) && multiset(r.0) == kept && z in r.1
  {
    var r := Visit(w, o, cap, a, lt);
    VisitConcat(w, o, cap, a, d, lt);
    AfterDeletions(r.0, r.1, cap, d, kept, lt);
    Visited(w, o, cap, a + d, lt);
    AppliedIs(multiset(w) + o, a + d, z);
  }

  // Afterwards the insertions beyond z fill the window again.
  lemma AfterAll<T(!new)>(w: seq<T>, o: multiset<T>, cap: nat, c: Changes<T>, kept: multiset<T>, z: T, lt: Order<T>)
    requires TotalOrder(lt) && cap >= 1 && Sorted(w, lt) && multiset(w) == kept && z in o && |kept| <= cap
    requires (forall x :: x in kept ==> lt(x, z)) && forall x :: x in c ==> x.1 > 0 && lt(z, x.0)
    ensures var r := Visit(w, o, cap, c, lt); var n := |kept| + |Inserted(c)|;
            && Sorted(r.0, lt) && z in r.1 && Low(r.0, z, lt) == |kept|
            && |r.0| == if n < cap then n else cap
  {
    assert |w| == |multiset(w)|;
    InsertionsBeyond(w, o, cap, c, z, lt);
    InsertionsFill(w, o, cap, c, lt);
    CountAll(kept, UpTo(z, lt));
  }

  lemma Partition<T(!new)>(input: multiset<T>, cap: nat, lt: Order<T>) returns (w: seq<T>, o: multiset<T>)
    requires TotalOrder(lt)
    ensures Sorted(w, lt) && OrderOk(w, o, lt) && Tight(w, o, cap) && |w| <= cap && multiset(w) + o == input
  {
    var all := SortedListing(input, lt);
    var k := if |all| < cap then |all| else cap;
    w, o := all[..k], multiset(all[k..]);
    assert all == all[..k] + all[k..];
    forall x, y | x in w && y in o ensures !lt(y, x) {
      var i :| 0 <= i < k && all[i] == x;
      assert y in all[k..];
      var j :| 0 <= j < |all[k..]| && all[k..][j] == y;
      assert all[k + j] == y;
    }
  }

  lemma BelowMonotone<T(!new)>(m: multiset<T>, y: T, z: T, lt: Order<T>)
    requires TotalOrder(lt) && !lt(y, z)
    ensures Count(m, Below(z, lt)) <= Count(m, Below(y, lt)) && Count(m, Above(y, lt)) <= Count(m, Above(z, lt))
  {
    CountImplies(m, Below(z, lt), Below(y, lt));
    CountImplies(m, Above(y, lt), Above(z, lt));
  }

  // How the copies of a row are shared out before the deletions: `below` and
  // `rest` are deleted, `extra` rows m and one more copy of z are kept.
  lemma Shares<T(!new)>(below: multiset<T>, rest: multiset<T>, ins: multiset<T>, m: T, extra: nat, z: T, k: nat, copies: nat,
                 lt: Order<T>)
    returns (kept: multiset<T>, low: multiset<T>, high: multiset<T>)
    requires TotalOrder(lt) && lt(m, z) && k <= rest[z] && copies >= 1
    requires (forall x :: x in below ==> lt(x, z)) && (forall x :: x in rest ==> !lt(x, z)) && forall x :: x in ins ==> lt(x, z)
    ensures kept == Chunk(m, extra) + ins && |kept| == extra + |ins| && forall x :: x in kept ==> lt(x, z)
    ensures low + high == below + rest + Chunk(m, extra) + Chunk(z, copies) + ins && |low| == |below| + extra + |ins| + k
    ensures high != multiset{} && forall x, y :: x in low && y in high ==> !lt(y, x)
    ensures forall x :: kept[x] == Left(low[x], (below + rest)[x])
  {
    kept := Chunk(m, extra) + ins;
    low := below + kept + Chunk(z, k);
    high := (rest - Chunk(z, k)) + Chunk(z, copies);
    assert z in high;
    forall x, y | x in low && y in high ensures !lt(y, x) {
      assert x == z || lt(x, z);
      assert y == z || !lt(y, z);
    }
    forall x ensures kept[x] == Left(low[x], (below + rest)[x]) {
      if x == z {
        assert low[z] == k && kept[z] == 0;
      } else if !lt(x, z) {
        assert low[x] == 0;
      } else {
        assert rest[x] == 0;
      }
    }
  }

  // The row to hide, the three phases, and the deleted rows below it.
  lemma HidingParts<T(!new)>(b: Changes<T>, cap: nat, cap1: nat, reach: nat, y: T, lt: Order<T>)
    returns (z: T, a: Changes<T>, d: Changes<T>, c: Changes<T>, below: multiset<T>, rest: multiset<T>)
    requires TotalOrder(lt) && IsDelta(b) && Exposes(Deleted(b), Inserted(b), cap, cap1, reach, y, lt) && reach <= cap1
    ensures z in Deleted(b) && Amounting(b, a, d, c, z, lt)
    ensures below + rest == Deleted(b) == Deleted(d) && |below| + reach <= cap && rest[z] + |below| + reach > cap
    ensures (forall x :: x in below ==> lt(x, z)) && (forall x :: x in rest ==> !lt(x, z))
            && forall x :: x in Inserted(a) ==> lt(x, z)
    ensures |Inserted(a)| < reach && Count(Inserted(b), Above(z, lt)) + reach > cap1
  {
    z := PassingRow(Deleted(b), cap - reach, y, lt);
    BelowMonotone(Inserted(b), y, z, lt);
    a, d, c := ThreePhases(b, z, lt);
    PhaseAmounts(b, a, d, c, z, lt);
    PhaseCounts(b, a, d, c, z, lt);
    below, rest := DeletedSplit(d, z, lt);
    UpToIsBelowOrEqual(Deleted(b), z, lt);
    assert below[z] == 0;
  }

  // An exposed row is hidden by one order of the batch, from one window over
  // one log of n rows.
  lemma HidingOrder<T(!new)>(b: Changes<T>, cap: nat, cap1: nat, reach: nat, y: T, m: T, n: nat, lt: Order<T>)
    returns (w: seq<T>, o: multiset<T>, changes: Changes<T>, z: T)
    requires TotalOrder(lt) && IsDelta(b) && Exposes(Deleted(b), Inserted(b), cap, cap1, reach, y, lt) && reach <= cap1
    requires n >= |Deleted(b)| + reach && forall x :: x in Deleted(b) ==> lt(m, x)
    ensures Sorted(w, lt) && OrderOk(w, o, lt) && Tight(w, o, cap) && |multiset(w) + o| == n
    ensures multiset(changes) == multiset(b) && Deletable(multiset(w) + o, changes)
    ensures var r := Visit(w, o, cap, changes, lt);
            Sorted(r.0, lt) && |r.0| >= cap1 && z in r.1 && Low(r.0, z, lt) == reach - 1
  {
    var a, d, c, below, rest;
    z, a, d, c, below, rest := HidingParts(b, cap, cap1, reach, y, lt);
    var extra := reach - 1 - |Inserted(a)|;
    var copies := n - |Deleted(b)| - extra;
    var kept, low, high := Shares(below, rest, Inserted(a), m, extra, z, cap - |below| - (reach - 1), copies, lt);
    w, o := Partition(Deleted(b) + Chunk(m, extra) + Chunk(z, copies), cap, lt);
    changes := a + d + c;
    AfterInsertions(w, o, cap, a, low, high, lt);
    HidingVisit(w, o, cap, b, a, d, c, kept, low, z, lt);
  }

  lemma HidingVisit<T(!new)>(w: seq<T>, o: multiset<T>, cap: nat, b: Changes<T>, a: Changes<T>, d: Changes<T>, c: Changes<T>,
                             kept: multiset<T>, low: multiset<T>, z: T, lt: Order<T>)
    requires TotalOrder(lt) && cap >= 1 && Sorted(w, lt) && IsDelta(b) && Amounting(b, a, d, c, z, lt)
    requires Deleted(b) <= multiset(w) + o && (multiset(w) + o)[z] > Deleted(b)[z] > 0
    requires multiset(Visit(w, o, cap, a, lt).0) == low && forall x :: kept[x] == Left(low[x], Deleted(d)[x])
    requires |kept| <= cap && forall x :: x in kept ==> lt(x, z)
    ensures Deletable(multiset(w) + o, a + d + c)
    ensures var r := Visit(w, o, cap, a + d + c, lt); var n := |kept| + Count(Inserted(b), Above(z, lt));
            && Sorted(r.0, lt) && z in r.1 && Low(r.0, z, lt) == |kept|
            && |r.0| == if n < cap then n else cap
  {
    PhaseAmounts(b, a, d, c, z, lt);
    PhaseCounts(b, a, d, c, z, lt);
    DeltaPermutes(b, a + d + c);
    AmountsPermute(a + d + c, b);
    AnyOrderDeletable(multiset(w) + o, a + d + c);
    DeletableTake(multiset(w) + o, a + d, c);
    AmountsConcat(a, d);
    AfterBoth(w, o, cap, a, d, kept, low, z, lt);
    VisitConcat(w, o, cap, a + d, c, lt);
    var r := Visit(w, o, cap, a + d, lt);
    AfterAll(r.0, r.1, cap, c, kept, z, lt);
  }

  lemma DeltaPermutes<T(!new)>(b: Changes<T>, changes: Changes<T>)
    requires IsDelta(b) && multiset(changes) == multiset(b)
    ensures IsDelta(changes)
  {
    forall c ensures c in changes <==> c in b {
      assert c in changes <==> c in multiset(changes);
      assert c in b <==> c in multiset(b);
    }
  }

  // ---- drift over many batches ----

  // Since the window was last in order, `gone` rows were deleted and `added`
  // rows inserted: a row of the log has all but `gone` of `bound` window
  // rows, and all but `added` of the window, at or before it.
  ghost predicate Drift<T(!new)>(w: seq<T>, o: multiset<T>, bound: nat, gone: nat, added: nat, lt: Order<T>) {
    forall y :: DriftAt(w, o, y, bound, gone, added, lt)
  }

  ghost predicate DriftAt<T(!new)>(w: seq<T>, o: multiset<T>, y: T, bound: nat, gone: nat, added: nat, lt: Order<T>) {
    y in o ==> Low(w, y, lt) + gone >= bound && |w| <= Low(w, y, lt) + added
  }

  lemma DriftStarts<T(!new)>(w: seq<T>, o: multiset<T>, cap: nat, lt: Order<T>)
    requires TotalOrder(lt) && Sorted(w, lt) && OrderOk(w, o, lt) && Tight(w, o, cap)
    ensures Drift(w, o, cap, 0, 0, lt)
  {
    forall y ensures DriftAt(w, o, y, cap, 0, 0, lt) {
      TrackedAtStart(w, o, cap, y, lt);
      assert y in o ==> !lt(y, y);
    }
  }

  lemma DriftInsertAt<T(!new)>(w: seq<T>, o: multiset<T>, cap: nat, row: T, bound: nat, gone: nat, added: nat, y: T, lt: Order<T>)
    requires TotalOrder(lt) && Sorted(w, lt) && cap >= 1 && bound <= cap
    requires DriftAt(w, o, y, bound, gone, added, lt)
    ensures var r := InsertOne(w, o, cap, row, lt); DriftAt(r.0, r.1, y, bound, gone, added + 1, lt)
  {
    if |w| >= cap && !lt(row, w[|w| - 1]) {
      LoggedInsert(w, cap, row, y, lt);
    } else {
      var last := WindowInsert(w, o, cap, row, y, lt);
      assert !lt(y, y);
    }
  }

  lemma DriftDeleteAt<T(!new)>(w: seq<T>, o: multiset<T>, row: T, bound: nat, gone: nat, added: nat, y: T, lt: Order<T>)
    requires DriftAt(w, o, y, bound, gone, added, lt)
    ensures var r := DeleteOne(w, o, row); DriftAt(r.0, r.1, y, bound, gone + 1, added, lt)
  {
    if row in w {
      Removed(w, row);
      LowRemoved(w, row, y, lt);
    }
  }

  lemma {:induction false} DriftRepeatAt<T(!new)>(w: seq<T>, o: multiset<T>, cap: nat, row: T, n: int, bound: nat, gone: nat,
                                           added: nat, y: T, lt: Order<T>)
    requires TotalOrder(lt) && Sorted(w, lt) && cap >= 1 && bound <= cap && DriftAt(w, o, y, bound, gone, added, lt)
    ensures var r := Repeat(w, o, cap, row, n, lt);
            Sorted(r.0, lt) && DriftAt(r.0, r.1, y, bound, gone + (if n < 0 then -n else 0), added + (if n > 0 then n else 0), lt)
    decreases if n < 0 then -n else n
  {
    if n > 0 {
      var r := InsertOne(w, o, cap, row, lt);
      InsertedRows(w, o, cap, row, lt);
      DriftInsertAt(w, o, cap, row, bound, gone, added, y, lt);
      DriftRepeatAt(r.0, r.1, cap, row, n - 1, bound, gone, added + 1, y, lt);
    } else if n < 0 {
      var r := DeleteOne(w, o, row);
      RemovedSorted(w, row, lt);
      DriftDeleteAt(w, o, row, bound, gone, added, y, lt);
      DriftRepeatAt(r.0, r.1, cap, row, n + 1, bound, gone + 1, added, y, lt);
    }
  }

  lemma {:induction false} DriftVisitAt<T(!new)>(w: seq<T>, o: multiset<T>, cap: nat, changes: Changes<T>, bound: nat,
                                          gone: nat, added: nat, y: T, lt: Order<T>)
    requires TotalOrder(lt) && Sorted(w, lt) && cap >= 1 && bound <= cap && DriftAt(w, o, y, bound, gone, added, lt)
    ensures var r := Visit(w, o, cap, changes, lt);
            Sorted(r.0, lt) && DriftAt(r.0, r.1, y, bound, gone + |Deleted(changes)|, added + |Inserted(changes)|, lt)
  {
    if changes != [] {
      var n := |changes| - 1;
      var before := changes[..n];
      DriftVisitAt(w, o, cap, before, bound, gone, added, y, lt);
      var r := Visit(w, o, cap, before, lt);
      DriftRepeatAt(r.0, r.1, cap, changes[n].0, changes[n].1, bound, gone + |Deleted(before)|, added + |Inserted(before)|,
              y, lt);
    }
  }

  // Every batch adds its deletions and insertions to the drift.
  lemma DriftVisit<T(!new)>(w: seq<T>, o: multiset<T>, cap: nat, changes: Changes<T>, bound: nat, gone: nat, added: nat,
                     lt: Order<T>, gone1: nat, added1: nat)
    requires TotalOrder(lt) && Sorted(w, lt) && cap >= 1 && bound <= cap && Drift(w, o, bound, gone, added, lt)
    requires gone1 == gone + |Deleted(changes)| && added1 == added + |Inserted(changes)|
    ensures var r := Visit(w, o, cap, changes, lt); Drift(r.0, r.1, bound, gone1, added1, lt)
  {
    var r := Visit(w, o, cap, changes, lt);
    forall y ensures DriftAt(r.0, r.1, y, bound, gone1, added1, lt) {
      assert DriftAt(w, o, y, bound, gone, added, lt);
      DriftVisitAt(w, o, cap, changes, bound, gone, added, y, lt);
    }
  }
}

// What a LIMIT view shows of a window over a log.
module ShownRows {
  import opened ZSets
  import opened Rows
  import opened Counting
  import opened Sorting
  import opened TopKWindow
  import opened VisitingOrders

  function Max(a: int, b: int): int {
    if a < b then b else a
  }

  function Min(a: int, b: int): int {
    if a < b then a else b
  }

  // Rows offset .. offset + limit of a listing; no upper bound when negative.
  function Slice(s: seq<Row>, offset: int, limit: int): seq<Row> {
    var lo := Min(Max(0, offset), |s|);
    var hi := if limit < 0 then |s| else Min(lo + limit, |s|);
    s[lo..hi]
  }

  // The result as a Z-set of projected rows.
  function Tally(s: seq<Row>, project: Row -> Row): (r: ZSet<Row>) {
    if s == [] then map[] else Insert(Tally(s[..|s| - 1], project), project(s[|s| - 1]), 1)
  }

  function ReachOf(offset: int, limit: int): nat {
    Max(0, offset) + Max(0, limit)
  }

  // What SQL asks for: the slice of the sorted input.
  ghost predicate Answer(lt: Order<Row>, offset: int, limit: int, project: Row -> Row, input: multiset<Row>, result: ZSet<Row>) {
    forall s: seq<Row> :: Sorted(s, lt) && multiset(s) == input ==> result == Tally(Slice(s, offset, limit), project)
  }

  lemma PrefixAnswers(lt: Order<Row>, offset: int, limit: int, project: Row -> Row, w: seq<Row>, o: multiset<Row>)
    requires TotalOrder(lt) && Sorted(w, lt) && OrderOk(w, o, lt)
    requires o == multiset{} || (limit >= 0 && |w| >= ReachOf(offset, limit))
    ensures Answer(lt, offset, limit, project, multiset(w) + o, Tally(Slice(w, offset, limit), project))
  {
    forall s: seq<Row> | Sorted(s, lt) && multiset(s) == multiset(w) + o
      ensures Slice(s, offset, limit) == Slice(w, offset, limit)
    {
      WindowIsPrefix(w, o, lt, s);
      assert |s| == |multiset(s)| == |w| + |o|;
      SliceOfLonger(w, s, offset, limit);
    }
  }

  lemma SliceOfLonger(w: seq<Row>, s: seq<Row>, offset: int, limit: int)
    requires |w| <= |s| && s[..|w|] == w && (|w| == |s| || (limit >= 0 && |w| >= ReachOf(offset, limit)))
    ensures Slice(s, offset, limit) == Slice(w, offset, limit)
  {
    assert |w| == |s| ==> s == w;
  }

  // It is enough that the first `reach` rows of the window lie before the log.
  lemma ReachAnswers(lt: Order<Row>, offset: int, limit: int, project: Row -> Row, w: seq<Row>, o: multiset<Row>)
    requires TotalOrder(lt) && Sorted(w, lt) && limit >= 0 && |w| >= ReachOf(offset, limit)
    requires forall y :: y in o ==> Low(w, y, lt) >= ReachOf(offset, limit)
    ensures Answer(lt, offset, limit, project, multiset(w) + o, Tally(Slice(w, offset, limit), project))
  {
    var reach := ReachOf(offset, limit);
    var rest := multiset(w[reach..]) + o;
    assert w == w[..reach] + w[reach..];
    assert multiset(w[..reach]) + rest == multiset(w) + o;
    forall x, y | x in w[..reach] && y in rest ensures !lt(y, x) {
      BeforeRest(w, o, reach, x, y, lt);
    }
    PrefixAnswers(lt, offset, limit, project, w[..reach], rest);
    SliceOfPrefix(w, offset, limit);
  }

  lemma SliceOfPrefix(w: seq<Row>, offset: int, limit: int)
    requires limit >= 0 && |w| >= ReachOf(offset, limit)
    ensures Slice(w[..ReachOf(offset, limit)], offset, limit) == Slice(w, offset, limit)
  {
  }

  lemma BeforeRest(w: seq<Row>, o: multiset<Row>, reach: nat, x: Row, y: Row, lt: Order<Row>)
    requires TotalOrder(lt) && Sorted(w, lt) && |w| >= reach && x in w[..reach] && y in multiset(w[reach..]) + o
    requires y in o ==> Low(w, y, lt) >= reach
    ensures !lt(y, x)
  {
    var i :| 0 <= i < reach && w[i] == x;
    if y in w[reach..] {
      var j :| 0 <= j < |w[reach..]| && w[reach..][j] == y;
      assert w[reach + j] == y;
    } else {
      assert y !in multiset(w[reach..]);
      LowIsPrefix(w, y, lt, i);
    }
  }

  ghost predicate TellsApart(project: Row -> Row) {
    forall x, y {:trigger project(x), project(y)} :: project(x) == project(y) ==> x == y
  }

  lemma {:induction false} TallyHas(s: seq<Row>, project: Row -> Row, x: Row)
    requires TellsApart(project)
    ensures W(Tally(s, project), project(x)) == multiset(s)[x]
  {
    if s != [] {
      var n := |s| - 1;
      TallyHas(s[..n], project, x);
      assert s == s[..n] + [s[n]];
      assert project(s[n]) == project(x) ==> s[n] == x;
    }
  }

  // A full window that hides z shows a row beyond z in z's place.
  lemma HiddenIsWrong(lt: Order<Row>, offset: int, limit: int, project: Row -> Row, w: seq<Row>, o: multiset<Row>, z: Row)
    requires TotalOrder(lt) && Sorted(w, lt) && z in o && TellsApart(project) && limit > 0
    requires |w| >= ReachOf(offset, limit) && Low(w, z, lt) == ReachOf(offset, limit) - 1
    ensures !Answer(lt, offset, limit, project, multiset(w) + o, Tally(Slice(w, offset, limit), project))
  {
    var last := ReachOf(offset, limit) - 1;
    var s := SortedListing(multiset(w) + o, lt);
    OneMore(w, o, s, z, lt);
    SliceUpTo(s, offset, limit, z, lt);
    LowIsPrefix(w, z, lt, last);
    LastShown(w, offset, limit);
    var shown, right := Slice(w, offset, limit), Slice(s, offset, limit);
    assert w[last] !in multiset(right);
    TallyHas(shown, project, w[last]);
    TallyHas(right, project, w[last]);
  }

  lemma LastShown(w: seq<Row>, offset: int, limit: int)
    requires limit > 0 && |w| >= ReachOf(offset, limit)
    ensures w[ReachOf(offset, limit) - 1] in multiset(Slice(w, offset, limit))
  {
    var shown := Slice(w, offset, limit);
    assert shown[|shown| - 1] == w[ReachOf(offset, limit) - 1];
  }

  lemma OneMore(w: seq<Row>, o: multiset<Row>, s: seq<Row>, z: Row, lt: Order<Row>)
    requires TotalOrder(lt) && multiset(s) == multiset(w) + o && z in o
    ensures Low(s, z, lt) >= Low(w, z, lt) + 1
  {
    CountPlus(multiset(w), o, UpTo(z, lt));
    CountSome(o, UpTo(z, lt), z);
  }

  lemma SliceUpTo(s: seq<Row>, offset: int, limit: int, z: Row, lt: Order<Row>)
    requires TotalOrder(lt) && Sorted(s, lt) && limit >= 0 && Low(s, z, lt) >= ReachOf(offset, limit)
    ensures forall x :: x in Slice(s, offset, limit) ==> !lt(z, x)
  {
    var right := Slice(s, offset, limit);
    forall x | x in right ensures !lt(z, x) {
      var i :| 0 <= i < |right| && right[i] == x;
      LowIsPrefix(s, z, lt, Max(0, offset) + i);
    }
  }

  // What a batch makes the view show: a window that came short of the new
  // cap is refilled from the log, any other is shown as the visit left it.
  ghost predicate RightAfter(lt: Order<Row>, offset: int, limit: int, project: Row -> Row,
                             w: seq<Row>, o: multiset<Row>, cap: nat, cap1: nat, changes: Changes<Row>)
    requires cap >= 1
  {
    var r := Visit(w, o, cap, changes, lt);
    |r.0| < cap1 || Answer(lt, offset, limit, project, Applied(multiset(w) + o, changes),
            Tally(Slice(r.0, offset, limit), project))
  }

  lemma NothingMissing(w: seq<Row>, o: multiset<Row>, cap: nat, cap1: nat, reach: nat, changes: Changes<Row>, lt: Order<Row>,
                       y: Row)
    requires TotalOrder(lt) && cap >= 1 && Sorted(w, lt) && OrderOk(w, o, lt) && Tight(w, o, cap)
    requires IsDelta(changes) && Deletable(multiset(w) + o, changes) && reach <= cap1
    requires forall z :: !Exposes(Deleted(changes), Inserted(changes), cap, cap1, reach, z, lt)
    requires var r := Visit(w, o, cap, changes, lt); |r.0| >= cap1 && y in r.1
    ensures Low(Visit(w, o, cap, changes, lt).0, y, lt) >= reach
  {
    if Low(Visit(w, o, cap, changes, lt).0, y, lt) < reach {
      var z := HiddenIsExposed(w, o, cap, changes, cap1, reach, lt, y);
    }
  }

  lemma UnexposedIsRight(lt: Order<Row>, offset: int, limit: int, project: Row -> Row,
                         w: seq<Row>, o: multiset<Row>, cap: nat, cap1: nat, changes: Changes<Row>)
    requires TotalOrder(lt) && cap >= 1 && Sorted(w, lt) && OrderOk(w, o, lt) && Tight(w, o, cap)
    requires IsDelta(changes) && Deletable(multiset(w) + o, changes) && limit >= 0 && ReachOf(offset, limit) <= cap1
    requires limit == 0 || forall y :: !Exposes(Deleted(changes), Inserted(changes), cap, cap1, ReachOf(offset, limit), y, lt)
    ensures RightAfter(lt, offset, limit, project, w, o, cap, cap1, changes)
  {
    var r := Visit(w, o, cap, changes, lt);
    Visited(w, o, cap, changes, lt);
    if limit == 0 {
      assert forall s: seq<Row> :: Slice(s, offset, 0) == [];
    } else if |r.0| >= cap1 {
      forall y | y in r.1 ensures Low(r.0, y, lt) >= ReachOf(offset, limit) {
        NothingMissing(w, o, cap, cap1, ReachOf(offset, limit), changes, lt, y);
      }
      ReachAnswers(lt, offset, limit, project, r.0, r.1);
    }
  }

  lemma ExposedIsWrong(lt: Order<Row>, offset: int, limit: int, project: Row -> Row, b: Changes<Row>, cap: nat, cap1: nat,
                       y: Row, m: Row, n: nat)
    returns (w: seq<Row>, o: multiset<Row>, changes: Changes<Row>)
    requires TotalOrder(lt) && IsDelta(b) && TellsApart(project) && limit > 0 && ReachOf(offset, limit) <= cap1
    requires Exposes(Deleted(b), Inserted(b), cap, cap1, ReachOf(offset, limit), y, lt)
    requires n >= |Deleted(b)| + ReachOf(offset, limit) && forall x :: x in Deleted(b) ==> lt(m, x)
    ensures Sorted(w, lt) && OrderOk(w, o, lt) && Tight(w, o, cap) && |multiset(w) + o| == n
    ensures multiset(changes) == multiset(b) && Deletable(multiset(w) + o, changes)
    ensures cap >= 1 && !RightAfter(lt, offset, limit, project, w, o, cap, cap1, changes)
  {
    var z;
    w, o, changes, z := HidingOrder(b, cap, cap1, ReachOf(offset, limit), y, m, n, lt);
    var r := Visit(w, o, cap, changes, lt);
    Visited(w, o, cap, changes, lt);
    HiddenIsWrong(lt, offset, limit, project, r.0, r.1, z);
  }
}
