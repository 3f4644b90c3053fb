// LIMIT / OFFSET views: the bounded top-K window over an overflow log against
// the view that keeps every row (include/dbsp_duckdb_types.hpp).
module RowOrder {
  import opened Rows
  import opened Sorting

  datatype SortColumn = SortColumn(idx: nat, ascending: bool, nullsFirst: bool)

  // The value order of the tie-breaker; NULL is last.
  predicate ValueLess(a: Value, b: Value) {
    if a.Null? then false else if b.Null? then true else a.v < b.v
  }

  predicate RowLess(a: Row, b: Row) {
    if b == [] then false
    else if a == [] then true
    else if a[0] != b[0] then ValueLess(a[0], b[0])
    else RowLess(a[1..], b[1..])
  }

  // One sort column decides, unless the values tie.
  predicate ColumnLess(col: SortColumn, a: Value, b: Value) {
    if a.Null? && b.Null? then false
    else if a.Null? then col.nullsFirst
    else if b.Null? then !col.nullsFirst
    else if a.v == b.v then false
    else if col.ascending then a.v < b.v else a.v > b.v
  }

  // RowComparator: the sort columns in turn, then the whole row. A column
  // outside either row is skipped.
  predicate Before(cols: seq<SortColumn>, a: Row, b: Row) {
    if cols == [] then RowLess(a, b)
    else
      var col := cols[0];
      if col.idx >= |a| || col.idx >= |b| || a[col.idx] == b[col.idx] then Before(cols[1..], a, b)
      else ColumnLess(col, a[col.idx], b[col.idx])
  }

  lemma {:induction false} RowLessOrder(a: Row, b: Row)
    ensures RowLess(a, b) ==> !RowLess(b, a)
    ensures a != b ==> RowLess(a, b) || RowLess(b, a)
  {
    if a != [] && b != [] && a[0] == b[0] {
      RowLessOrder(a[1..], b[1..]);
      assert a == [a[0]] + a[1..] && b == [b[0]] + b[1..];
    }
  }

  lemma {:induction false} RowLessTransitive(a: Row, b: Row, c: Row)
    requires RowLess(a, b) && RowLess(b, c)
    ensures RowLess(a, c)
  {
    if a != [] && b != [] && c != [] && a[0] == b[0] == c[0] {
      RowLessTransitive(a[1..], b[1..], c[1..]);
    }
  }

  lemma {:induction false} BeforeOrder(cols: seq<SortColumn>, a: Row, b: Row)
    ensures Before(cols, a, b) ==> !Before(cols, b, a)
    ensures a != b ==> Before(cols, a, b) || Before(cols, b, a)
  {
    if cols == [] {
      RowLessOrder(a, b);
    } else {
      BeforeOrder(cols[1..], a, b);
    }
  }

  // Rows of one width are totally ordered.
  lemma {:induction false} BeforeTransitive(cols: seq<SortColumn>, a: Row, b: Row, c: Row)
    requires |a| == |b| == |c| && Before(cols, a, b) && Before(cols, b, c)
    ensures Before(cols, a, c)
  {
    if cols == [] {
      RowLessTransitive(a, b, c);
    } else if cols[0].idx >= |a| || (a[cols[0].idx] == b[cols[0].idx] == c[cols[0].idx]) {
      BeforeTransitive(cols[1..], a, b, c);
    }
  }

  // The comparator as an order on all rows: a source's rows share one width.
  function OrderOf(cols: seq<SortColumn>): (Row, Row) -> bool {
    (a: Row, b: Row) => if |a| != |b| then |a| < |b| else Before(cols, a, b)
  }

  lemma OrderIsTotal(cols: seq<SortColumn>)
    ensures TotalOrder(OrderOf(cols))
  {
    var lt := OrderOf(cols);
    forall a: Row, b: Row ensures lt(a, b) ==> !lt(b, a)
                          ensures a != b ==> lt(a, b) || lt(b, a)
    {
      BeforeOrder(cols, a, b);
    }
    forall a: Row, b: Row, c: Row | lt(a, b) && lt(b, c) ensures lt(a, c) {
      if |a| == |b| == |c| {
        BeforeTransitive(cols, a, b, c);
      }
    }
  }
}

// The bounded window as methods on its state.
module TopKWindow {
  import opened Sorting

  type Order<!T> = (T, T) -> bool

  // Every window row orders no later than every overflow row.
  ghost predicate OrderOk<T(!new)>(w: seq<T>, o: multiset<T>, lt: Order<T>) {
    forall x, y :: x in w && y in o ==> !lt(y, x)
  }

  // Rows wait in the log only while the window is full.
  ghost predicate Tight<T(!new)>(w: seq<T>, o: multiset<T>, cap: nat) {
    |w| < cap ==> o == multiset{}
  }

  lemma LastIsMax<T(!new)>(w: seq<T>, lt: Order<T>)
    requires TotalOrder(lt) && Sorted(w, lt) && w != []
    ensures forall x :: x in w ==> !lt(w[|w| - 1], x)
  {
    TotalIsWeak(lt);
    forall x | x in w ensures !lt(w[|w| - 1], x) {
      LastIsGreatest(w, x, lt);
    }
  }

  lemma PlaceMembers<T(!new)>(w: seq<T>, row: T, lt: Order<T>)
    requires TotalOrder(lt) && Sorted(w, lt)
    ensures Sorted(Place(w, row, lt), lt) && multiset(Place(w, row, lt)) == multiset(w) + multiset{row}
    ensures |Place(w, row, lt)| == |w| + 1
    ensures forall x :: x in Place(w, row, lt) <==> x in w || x == row
  {
    TotalIsWeak(lt);
    PlaceSorted(w, row, lt);
    assert |multiset(Place(w, row, lt))| == |w| + 1;
    forall x ensures x in Place(w, row, lt) <==> x in w || x == row {
      assert x in Place(w, row, lt) <==> x in multiset(Place(w, row, lt));
      assert x in w <==> x in multiset(w);
    }
  }

  // ---- one insertion ----

  function InsertOne<T(==, !new)>(w: seq<T>, o: multiset<T>, cap: nat, row: T, lt: Order<T>): (seq<T>, multiset<T>)
    requires cap >= 1
  {
    if |w| >= cap && !lt(row, w[|w| - 1]) then (w, o + multiset{row})
    else
      var p := Place(w, row, lt);
      if |p| > cap then (p[..|p| - 1], o + multiset{p[|p| - 1]}) else (p, o)
  }

  // The row may go below the cutoff only if nothing in the log is smaller.
  ghost predicate SafeInsert<T(!new)>(w: seq<T>, o: multiset<T>, cap: nat, row: T, lt: Order<T>) {
    |w| >= cap || forall y :: y in o ==> !lt(y, row)
  }

  lemma InsertedRows<T(!new)>(w: seq<T>, o: multiset<T>, cap: nat, row: T, lt: Order<T>)
    requires TotalOrder(lt) && Sorted(w, lt) && cap >= 1
    ensures Sorted(InsertOne(w, o, cap, row, lt).0, lt)
    ensures Tight(w, o, cap) ==> Tight(InsertOne(w, o, cap, row, lt).0, InsertOne(w, o, cap, row, lt).1, cap)
  {
    PlaceMembers(w, row, lt);
  }

  lemma InsertedTotal<T(!new)>(w: seq<T>, o: multiset<T>, cap: nat, row: T, lt: Order<T>)
    requires cap >= 1 && multiset(Place(w, row, lt)) == multiset(w) + multiset{row}
    ensures multiset(InsertOne(w, o, cap, row, lt).0) + InsertOne(w, o, cap, row, lt).1 == multiset(w) + o + multiset{row}
  {
    var p := Place(w, row, lt);
    LastSplit(p);
    if |p| > cap {
      Moved(multiset(p[..|p| - 1]), o, p[|p| - 1], multiset(w) + multiset{row});
    }
  }

  lemma Moved<T>(kept: multiset<T>, o: multiset<T>, last: T, all: multiset<T>)
    requires all == kept + multiset{last}
    ensures kept + (o + multiset{last}) == all + o
  {
  }

  lemma LastSplit<T>(p: seq<T>)
    requires p != []
    ensures multiset(p) == multiset(p[..|p| - 1]) + multiset{p[|p| - 1]}
  {
    assert p == p[..|p| - 1] + [p[|p| - 1]];
  }

  lemma InsertedOrder<T(!new)>(w: seq<T>, o: multiset<T>, cap: nat, row: T, lt: Order<T>)
    requires TotalOrder(lt) && Sorted(w, lt) && cap >= 1 && OrderOk(w, o, lt) && SafeInsert(w, o, cap, row, lt)
    ensures OrderOk(InsertOne(w, o, cap, row, lt).0, InsertOne(w, o, cap, row, lt).1, lt)
  {
    PlaceMembers(w, row, lt);
    var p := Place(w, row, lt);
    LastIsMax(p, lt);
    assert forall x :: x in p[..|p| - 1] ==> x in p;
    if |w| >= cap {
      LastIsMax(w, lt);
      FullWindowBound(w, o, row, lt);
    }
  }

  // A full window's last row separates it from the log.
  lemma FullWindowBound<T(!new)>(w: seq<T>, o: multiset<T>, row: T, lt: Order<T>)
    requires TotalOrder(lt) && Sorted(w, lt) && w != [] && OrderOk(w, o, lt)
    ensures lt(row, w[|w| - 1]) ==> forall y :: y in o ==> !lt(y, row)
    ensures !lt(row, w[|w| - 1]) ==> forall x :: x in w ==> !lt(row, x)
  {
    var last := w[|w| - 1];
    assert last in w;
    LastIsMax(w, lt);
    forall y | y in o && lt(row, last) ensures !lt(y, row) {
      assert !lt(y, last);
      assert lt(y, row) && lt(row, last) ==> lt(y, last);
    }
    forall x | x in w && !lt(row, last) ensures !lt(row, x) {
      assert x == last || lt(x, last);
      assert lt(row, x) && lt(x, last) ==> lt(row, last);
    }
  }

  // ---- one deletion ----

  function RemoveFirst<T(==, !new)>(w: seq<T>, row: T): seq<T> {
    if w == [] then [] else if w[0] == row then w[1..] else [w[0]] + RemoveFirst(w[1..], row)
  }

  function DeleteOne<T(==, !new)>(w: seq<T>, o: multiset<T>, row: T): (seq<T>, multiset<T>) {
    if row in w then (RemoveFirst(w, row), o) else (w, o - multiset{row})
  }

  lemma {:induction false} Removed<T(!new)>(w: seq<T>, row: T)
    requires row in w
    ensures multiset(RemoveFirst(w, row)) == multiset(w) - multiset{row} && |RemoveFirst(w, row)| == |w| - 1
  {
    assert w == [w[0]] + w[1..];
    if w[0] != row {
      Removed(w[1..], row);
      assert multiset([w[0]] + RemoveFirst(w[1..], row)) == multiset{w[0]} + multiset(RemoveFirst(w[1..], row));
    }
  }

  lemma {:induction false} RemovedSorted<T(!new)>(w: seq<T>, row: T, lt: Order<T>)
    requires Sorted(w, lt)
    ensures Sorted(RemoveFirst(w, row), lt) && forall x :: x in RemoveFirst(w, row) ==> x in w
  {
    if w != [] {
      RemovedSorted(w[1..], row, lt);
      if w[0] != row {
        SortedPrepend(w, RemoveFirst(w[1..], row), lt);
      }
    }
  }

  lemma SortedPrepend<T(!new)>(w: seq<T>, r: seq<T>, lt: Order<T>)
    requires w != [] && Sorted(w, lt) && Sorted(r, lt) && forall x :: x in r ==> x in w[1..]
    ensures Sorted([w[0]] + r, lt)
  {
    forall j | 0 <= j < |r| ensures !lt(r[j], w[0]) {
      assert r[j] in w[1..];
      var i :| 0 <= i < |w[1..]| && w[1..][i] == r[j];
      assert w[i + 1] == r[j];
    }
  }

  lemma DeletedRows<T(!new)>(w: seq<T>, o: multiset<T>, row: T, lt: Order<T>)
    requires Sorted(w, lt) && row in multiset(w) + o
    ensures var r := DeleteOne(w, o, row);
            Sorted(r.0, lt) && multiset(r.0) + r.1 == multiset(w) + o - multiset{row}
            && (OrderOk(w, o, lt) ==> OrderOk(r.0, r.1, lt))
  {
    if row in w {
      Removed(w, row);
      RemovedSorted(w, row, lt);
    } else {
      assert row !in multiset(w);
    }
  }

  // ---- a batch ----

  // The same change n times over.
  function Repeat<T(==, !new)>(w: seq<T>, o: multiset<T>, cap: nat, row: T, n: int, lt: Order<T>): (seq<T>, multiset<T>)
    requires cap >= 1
    decreases if n < 0 then -n else n
  {
    if n > 0 then
      var r := InsertOne(w, o, cap, row, lt);
      Repeat(r.0, r.1, cap, row, n - 1, lt)
    else if n < 0 then
      var r := DeleteOne(w, o, row);
      Repeat(r.0, r.1, cap, row, n + 1, lt)
    else (w, o)
  }

  type Change<T> = (T, int)

  // The batch in the order it is visited.
  function Visit<T(==, !new)>(w: seq<T>, o: multiset<T>, cap: nat, changes: seq<Change<T>>, lt: Order<T>): (seq<T>, multiset<T>)
    requires cap >= 1
  {
    if changes == [] then (w, o)
    else
      var r := Visit(w, o, cap, changes[..|changes| - 1], lt);
      var c := changes[|changes| - 1];
      Repeat(r.0, r.1, cap, c.0, c.1, lt)
  }

  // The batch as one multiset change, and whether it deletes only what is there.
  function Applied<T(==, !new)>(input: multiset<T>, changes: seq<Change<T>>): multiset<T> {
    if changes == [] then input
    else
      var c := changes[|changes| - 1];
      var before := Applied(input, changes[..|changes| - 1]);
      var n := before[c.0] + c.1;
      before[c.0 := if n < 0 then 0 else n]
  }

  ghost predicate Deletable<T(!new)>(input: multiset<T>, changes: seq<Change<T>>) {
    forall i :: 0 <= i < |changes| ==> Applied(input, changes[..i])[changes[i].0] + changes[i].1 >= 0
  }

  // All insertions are visited before any deletion.
  predicate InsertionsFirst<T>(changes: seq<Change<T>>) {
    forall i, j :: 0 <= i < j < |changes| && changes[j].1 > 0 ==> changes[i].1 > 0
  }

  function Adjusted<T(==)>(m: multiset<T>, row: T, n: int): multiset<T>
    requires m[row] + n >= 0
  {
    m[row := m[row] + n]
  }

  lemma AdjustedStep<T>(m: multiset<T>, row: T, n: int)
    requires m[row] + n >= 0
    ensures n > 0 ==> Adjusted(m + multiset{row}, row, n - 1) == Adjusted(m, row, n)
    ensures n < 0 ==> Adjusted(m - multiset{row}, row, n + 1) == Adjusted(m, row, n)
  {
  }

  lemma {:induction false} Repeated<T(!new)>(w: seq<T>, o: multiset<T>, cap: nat, row: T, n: int, lt: Order<T>, m: multiset<T>)
    requires TotalOrder(lt) && Sorted(w, lt) && cap >= 1 && m == multiset(w) + o && m[row] + n >= 0
    ensures var r := Repeat(w, o, cap, row, n, lt); Sorted(r.0, lt) && multiset(r.0) + r.1 == Adjusted(m, row, n)
    decreases if n < 0 then -n else n
  {
    AdjustedStep(m, row, n);
    if n > 0 {
      var r := InsertOne(w, o, cap, row, lt);
      InsertedRows(w, o, cap, row, lt);
      PlaceMembers(w, row, lt);
      InsertedTotal(w, o, cap, row, lt);
      Repeated(r.0, r.1, cap, row, n - 1, lt, m + multiset{row});
    } else if n < 0 {
      var r := DeleteOne(w, o, row);
      DeletedRows(w, o, row, lt);
      Repeated(r.0, r.1, cap, row, n + 1, lt, m - multiset{row});
    }
  }

  lemma {:induction false} InsertedCopies<T(!new)>(w: seq<T>, o: multiset<T>, cap: nat, row: T, n: nat, lt: Order<T>)
    requires TotalOrder(lt) && cap >= 1 && Sorted(w, lt) && OrderOk(w, o, lt) && Tight(w, o, cap)
    ensures OrderOk(Repeat(w, o, cap, row, n, lt).0, Repeat(w, o, cap, row, n, lt).1, lt)
    ensures Tight(Repeat(w, o, cap, row, n, lt).0, Repeat(w, o, cap, row, n, lt).1, cap)
    decreases n
  {
    if n > 0 {
      var r := InsertOne(w, o, cap, row, lt);
      InsertedRows(w, o, cap, row, lt);
      InsertedOrder(w, o, cap, row, lt);
      InsertedCopies(r.0, r.1, cap, row, n - 1, lt);
    }
  }

  lemma {:induction false} DeletedCopies<T(!new)>(w: seq<T>, o: multiset<T>, cap: nat, row: T, n: nat, lt: Order<T>)
    requires TotalOrder(lt) && cap >= 1 && (multiset(w) + o)[row] >= n && Sorted(w, lt) && OrderOk(w, o, lt)
    ensures OrderOk(Repeat(w, o, cap, row, 0 - n, lt).0, Repeat(w, o, cap, row, 0 - n, lt).1, lt)
    decreases n
  {
    if n > 0 {
      var r := DeleteOne(w, o, row);
      DeletedRows(w, o, row, lt);
      DeletedCopies(r.0, r.1, cap, row, n - 1, lt);
    }
  }

  lemma RepeatedOrder<T(!new)>(w: seq<T>, o: multiset<T>, cap: nat, row: T, n: int, lt: Order<T>)
    requires TotalOrder(lt) && cap >= 1 && (multiset(w) + o)[row] + n >= 0
    requires Sorted(w, lt) && OrderOk(w, o, lt) && (n > 0 ==> Tight(w, o, cap))
    ensures OrderOk(Repeat(w, o, cap, row, n, lt).0, Repeat(w, o, cap, row, n, lt).1, lt)
    ensures n > 0 ==> Tight(Repeat(w, o, cap, row, n, lt).0, Repeat(w, o, cap, row, n, lt).1, cap)
  {
    if n > 0 {
      InsertedCopies(w, o, cap, row, n, lt);
    } else {
      DeletedCopies(w, o, cap, row, -n, lt);
    }
  }

  // Visiting a batch never loses a row.
  lemma {:induction false} Visited<T(!new)>(w: seq<T>, o: multiset<T>, cap: nat, changes: seq<Change<T>>, lt: Order<T>)
    requires TotalOrder(lt) && Sorted(w, lt) && cap >= 1 && Deletable(multiset(w) + o, changes)
    ensures var r := Visit(w, o, cap, changes, lt);
            Sorted(r.0, lt) && multiset(r.0) + r.1 == Applied(multiset(w) + o, changes)
  {
    if changes != [] {
      var n := |changes| - 1;
      DeletablePrefix(multiset(w) + o, changes);
      Visited(w, o, cap, changes[..n], lt);
      var r := Visit(w, o, cap, changes[..n], lt);
      Repeated(r.0, r.1, cap, changes[n].0, changes[n].1, lt, multiset(r.0) + r.1);
    }
  }

  lemma DeletablePrefix<T(!new)>(input: multiset<T>, changes: seq<Change<T>>)
    requires changes != [] && Deletable(input, changes)
    ensures var n := |changes| - 1;
            Deletable(input, changes[..n]) && Applied(input, changes[..n])[changes[n].0] + changes[n].1 >= 0
  {
    var before := changes[..|changes| - 1];
    assert forall i :: 0 <= i < |before| ==> before[..i] == changes[..i];
  }

  // Insertions before deletions keep the window below the log.
  lemma {:induction false} VisitedOrder<T(!new)>(w: seq<T>, o: multiset<T>, cap: nat, changes: seq<Change<T>>, lt: Order<T>)
    requires TotalOrder(lt) && cap >= 1 && Deletable(multiset(w) + o, changes)
    requires Sorted(w, lt) && OrderOk(w, o, lt) && Tight(w, o, cap) && InsertionsFirst(changes)
    ensures var r := Visit(w, o, cap, changes, lt);
            OrderOk(r.0, r.1, lt) && ((forall c :: c in changes ==> c.1 > 0) ==> Tight(r.0, r.1, cap))
  {
    if changes != [] {
      var n := |changes| - 1;
      var before := changes[..n];
      DeletablePrefix(multiset(w) + o, changes);
      Visited(w, o, cap, before, lt);
      VisitedOrder(w, o, cap, before, lt);
      assert changes[n] in changes;
      assert changes[n].1 > 0 ==> forall c :: c in before ==> c.1 > 0;
      var r := Visit(w, o, cap, before, lt);
      RepeatedOrder(r.0, r.1, cap, changes[n].0, changes[n].1, lt);
    }
  }

  // ---- the refill ----

  // One row of the log: into the window while it has room, swapped against
  // the last window row when smaller, back into the log otherwise.
  function RefillOne<T(==)>(w: seq<T>, o: multiset<T>, cap: nat, r: T, lt: Order<T>): (seq<T>, multiset<T>)
    requires cap >= 1
  {
    if |w| < cap then (Place(w, r, lt), o)
    else if lt(r, w[|w| - 1]) then (Place(w[..|w| - 1], r, lt), o + multiset{w[|w| - 1]})
    else (w, o + multiset{r})
  }

  ghost predicate Settled<T(!new)>(w: seq<T>, o: multiset<T>, cap: nat, lt: Order<T>) {
    Sorted(w, lt) && OrderOk(w, o, lt) && Tight(w, o, cap)
  }

  lemma RefilledOne<T(!new)>(w: seq<T>, o: multiset<T>, cap: nat, r: T, lt: Order<T>)
    requires TotalOrder(lt) && cap >= 1 && Settled(w, o, cap, lt)
    ensures var n := RefillOne(w, o, cap, r, lt); Settled(n.0, n.1, cap, lt)
  {
    if |w| < cap {
      PlaceMembers(w, r, lt);
    } else {
      var init := w[..|w| - 1];
      PlaceMembers(init, r, lt);
      LastIsMax(w, lt);
      FullWindowBound(w, o, r, lt);
      assert forall x :: x in init ==> x in w;
    }
  }

  lemma RefilledTotal<T(!new)>(w: seq<T>, o: multiset<T>, cap: nat, r: T, lt: Order<T>)
    requires TotalOrder(lt) && Sorted(w, lt) && cap >= 1
    ensures var n := RefillOne(w, o, cap, r, lt); multiset(n.0) + n.1 == multiset(w) + o + multiset{r}
  {
    if |w| < cap {
      PlaceMembers(w, r, lt);
    } else {
      PlaceMembers(w[..|w| - 1], r, lt);
      LastSplit(w);
    }
  }

  // One pass over the log, smallest rows promoted, the rest rewritten. It
  // repairs any misplacement, since it starts from an empty log.
  method Refill<T(==, !new)>(w0: seq<T>, all: seq<T>, cap: nat, lt: Order<T>) returns (w: seq<T>, o: multiset<T>)
    requires TotalOrder(lt) && cap >= 1 && Sorted(w0, lt)
    ensures Settled(w, o, cap, lt) && multiset(w) + o == multiset(w0) + multiset(all)
  {
    w, o := w0, multiset{};
    for i := 0 to |all|
      invariant Settled(w, o, cap, lt) && multiset(w) + o == multiset(w0) + multiset(all[..i])
    {
      RefilledOne(w, o, cap, all[i], lt);
      RefilledTotal(w, o, cap, all[i], lt);
      var n := RefillOne(w, o, cap, all[i], lt);
      w, o := n.0, n.1;
      assert all[..i + 1] == all[..i] + [all[i]];
    }
    assert all[..|all|] == all;
  }

  method Listing<T(==, !new)>(o: multiset<T>, lt: Order<T>) returns (all: seq<T>)
    requires TotalOrder(lt)
    ensures multiset(all) == o && Sorted(all, lt)
  {
    all := [];
    var rest := o;
    while rest != multiset{}
      invariant multiset(all) + rest == o && Sorted(all, lt)
      decreases |rest|
    {
      var x :| x in rest;
      PlaceMembers(all, x, lt);
      all := Place(all, x, lt);
      rest := rest - multiset{x};
    }
  }

  // The end of a batch: refill when the window has room and rows wait in the
  // log. A full window stays as the visit left it.
  method Settle<T(==, !new)>(w0: seq<T>, o0: multiset<T>, cap: nat, lt: Order<T>) returns (w: seq<T>, o: multiset<T>)
    requires TotalOrder(lt) && cap >= 1 && Sorted(w0, lt)
    ensures Sorted(w, lt) && Tight(w, o, cap) && multiset(w) + o == multiset(w0) + o0
    ensures if |w0| < cap then OrderOk(w, o, lt) else (w, o) == (w0, o0)
  {
    w, o := w0, o0;
    if |w| < cap && o != multiset{} {
      var all := Listing(o, lt);
      w, o := Refill(w, all, cap, lt);
    }
  }

  // A window in order over the log is a prefix of the sorted input.
  lemma WindowIsPrefix<T(!new)>(w: seq<T>, o: multiset<T>, lt: Order<T>, s: seq<T>)
    requires TotalOrder(lt) && Sorted(w, lt) && OrderOk(w, o, lt)
    requires Sorted(s, lt) && multiset(s) == multiset(w) + o
    ensures |w| <= |s| && s[..|w|] == w
  {
    var tail := SortedListing(o, lt);
    assert Sorted(w + tail, lt) by {
      forall y | y in tail ensures y in o {
        assert y in multiset(tail);
      }
    }
    assert multiset(w + tail) == multiset(w) + o;
    SortedUnique(s, w + tail, lt);
  }

  lemma SortedListing<T(!new)>(o: multiset<T>, lt: Order<T>) returns (s: seq<T>)
    requires TotalOrder(lt)
    ensures Sorted(s, lt) && multiset(s) == o
    decreases |o|
  {
    if o == multiset{} {
      s := [];
    } else {
      var x :| x in o;
      var rest := SortedListing(o - multiset{x}, lt);
      PlaceMembers(rest, x, lt);
      s := Place(rest, x, lt);
    }
  }
}

// LIMIT views in both modes.
module LimitViews {
  import opened ZSets
  import opened Rows
  import opened Sorting
  import opened RowOrder
  import opened TopKWindow
  import opened Counting
  import opened VisitingOrders
  import opened ShownRows

  datatype Spec = Spec(limit: int, percent: real, offset: int, cols: seq<SortColumn>, project: Row -> Row)
  {
    function Lt(): (Row, Row) -> bool {
      OrderOf(cols)
    }

    // LIMIT n, or LIMIT p% of the current input size, rounded down.
    function EffectiveLimit(count: nat): int {
      if percent < 0.0 then limit else (percent / 100.0 * count as real).Floor
    }

    function Reach(count: nat): nat {
      ReachOf(offset, EffectiveLimit(count))
    }

    // What both paths show of a listing.
    function Shown(rows: seq<Row>, count: nat): ZSet<Row> {
      Tally(Slice(rows, offset, EffectiveLimit(count)), project)
    }

    function DesiredCap(count: nat): (cap: nat)
      ensures cap >= 64 && cap >= Reach(count)
    {
      Reach(count) + Max(64, Max(1, EffectiveLimit(count)))
    }
  }

  // The recompute loop of both paths.
  method Recompute(s: seq<Row>, spec: Spec, effective: int) returns (r: ZSet<Row>)
    ensures r == Tally(Slice(s, spec.offset, effective), spec.project)
  {
    r := map[];
    var count := 0;
    ghost var lo := Min(Max(0, spec.offset), |s|);
    for i := 0 to |s|
      invariant count == Max(0, i - lo) && (effective >= 0 ==> count <= effective)
      invariant r == Tally(s[Min(lo, i)..i], spec.project)
    {
      if i >= spec.offset {
        if effective < 0 || count < effective {
          assert s[lo..i + 1][..i - lo] == s[lo..i];
          r := Insert(r, spec.project(s[i]), 1);
          count := count + 1;
        } else {
          assert s[lo..i] == Slice(s, spec.offset, effective);
          return;
        }
      }
    }
    assert s[Min(lo, |s|)..|s|] == Slice(s, spec.offset, effective);
  }

  ghost predicate TopResult(spec: Spec, input: multiset<Row>, result: ZSet<Row>) {
    Answer(spec.Lt(), spec.offset, spec.EffectiveLimit(|input|), spec.project, input, result)
  }

  // ---- the loops over a batch ----

  method RunRepeat(w0: seq<Row>, o0: multiset<Row>, cap: nat, row: Row, n: int, lt: (Row, Row) -> bool)
    returns (w: seq<Row>, o: multiset<Row>)
    requires cap >= 1
    ensures (w, o) == Repeat(w0, o0, cap, row, n, lt)
  {
    w, o := w0, o0;
    var i := n;
    while i != 0
      invariant if n >= 0 then 0 <= i <= n else n <= i <= 0
      invariant Repeat(w, o, cap, row, i, lt) == Repeat(w0, o0, cap, row, n, lt)
      decreases if i < 0 then -i else i
    {
      var r := if i > 0 then InsertOne(w, o, cap, row, lt) else DeleteOne(w, o, row);
      w, o := r.0, r.1;
      i := if i > 0 then i - 1 else i + 1;
    }
  }

  method RunVisit(w0: seq<Row>, o0: multiset<Row>, cap: nat, changes: seq<Change<Row>>, lt: (Row, Row) -> bool)
    returns (w: seq<Row>, o: multiset<Row>)
    requires cap >= 1
    ensures (w, o) == Visit(w0, o0, cap, changes, lt)
  {
    w, o := w0, o0;
    for i := 0 to |changes|
      invariant (w, o) == Visit(w0, o0, cap, changes[..i], lt)
    {
      assert changes[..i + 1][..i] == changes[..i];
      w, o := RunRepeat(w, o, cap, changes[i].0, changes[i].1, lt);
    }
    assert changes[..|changes|] == changes;
  }

  // The unbounded path: every row in one ordered multiset; a deletion of a
  // row that is not there does nothing.
  method RunFull(w0: seq<Row>, changes: seq<Change<Row>>, lt: (Row, Row) -> bool) returns (w: seq<Row>)
    requires TotalOrder(lt) && Sorted(w0, lt)
    ensures Sorted(w, lt) && multiset(w) == Applied(multiset(w0), changes)
  {
    w := w0;
    for i := 0 to |changes|
      invariant Sorted(w, lt) && multiset(w) == Applied(multiset(w0), changes[..i])
    {
      assert changes[..i + 1][..i] == changes[..i];
      w := FullRepeat(w, changes[i].0, changes[i].1, lt);
    }
    assert changes[..|changes|] == changes;
  }

  method FullRepeat(w0: seq<Row>, row: Row, n: int, lt: (Row, Row) -> bool) returns (w: seq<Row>)
    requires TotalOrder(lt) && Sorted(w0, lt)
    ensures Sorted(w, lt) && multiset(w) == multiset(w0)[row := Max(0, multiset(w0)[row] + n)]
  {
    w := w0;
    var i := n;
    while i != 0
      invariant Sorted(w, lt) && if n >= 0 then 0 <= i <= n else n <= i <= 0
      invariant multiset(w) == multiset(w0)[row := Max(0, multiset(w0)[row] + n - i)]
      decreases if i < 0 then -i else i
    {
      if i > 0 {
        PlaceMembers(w, row, lt);
        w := Place(w, row, lt);
        i := i - 1;
      } else {
        if row in w {
          Removed(w, row);
          RemovedSorted(w, row, lt);
          w := RemoveFirst(w, row);
        }
        i := i + 1;
      }
    }
  }

  lemma {:induction false} AppliedSize(input: multiset<Row>, changes: seq<Change<Row>>)
    requires Deletable(input, changes)
    ensures |Applied(input, changes)| == |input| + Net(changes)
  {
    if changes != [] {
      var n := |changes| - 1;
      DeletablePrefix(input, changes);
      AppliedSize(input, changes[..n]);
      ResizedSize(Applied(input, changes[..n]), changes[n].0, changes[n].1);
    }
  }

  lemma ResizedSize(m: multiset<Row>, row: Row, n: int)
    requires m[row] + n >= 0
    ensures |m[row := m[row] + n]| == |m| + n
  {
    var without := m[row := 0];
    assert m == without[row := m[row]];
  }

  function Net(changes: seq<Change<Row>>): int {
    if changes == [] then 0 else Net(changes[..|changes| - 1]) + changes[|changes| - 1].1
  }

  method SumWeights(total: int, changes: seq<Change<Row>>) returns (sum: int)
    ensures sum == total + Net(changes)
  {
    sum := total;
    for i := 0 to |changes|
      invariant sum == total + Net(changes[..i])
    {
      assert changes[..i + 1][..i] == changes[..i];
      sum := sum + changes[i].1;
    }
    assert changes[..|changes|] == changes;
  }

  // ---- one batch on the state of a view ----

  datatype Window = Window(rows: seq<Row>, overflow: multiset<Row>, cap: nat, total: int)

  ghost predicate WindowOk(spec: Spec, bounded: bool, win: Window, input: multiset<Row>) {
    && Sorted(win.rows, spec.Lt()) && multiset(win.rows) + win.overflow == input
    && if bounded then
         && (spec.limit >= 0 || spec.percent >= 0.0)
         && win.total == |input| && win.cap == spec.DesiredCap(|input|) && Tight(win.rows, win.overflow, win.cap)
       else win.overflow == multiset{}
  }

  // Nothing in the log belongs into the window.
  ghost predicate InOrder(spec: Spec, win: Window) {
    OrderOk(win.rows, win.overflow, spec.Lt())
  }

  // What a batch makes the bounded view show is right.
  ghost predicate ShownRight(spec: Spec, win: Window, count: nat, changes: Changes<Row>)
    requires win.cap >= 1
  {
    RightAfter(spec.Lt(), spec.offset, spec.EffectiveLimit(count), spec.project, win.rows, win.overflow, win.cap,
            spec.DesiredCap(count), changes)
  }

  method ApplyBounded(spec: Spec, win0: Window, ghost input: multiset<Row>, changes: seq<Change<Row>>) returns (win: Window)
    requires WindowOk(spec, true, win0, input) && Deletable(input, changes)
    ensures WindowOk(spec, true, win, Applied(input, changes))
    ensures var r := Visit(win0.rows, win0.overflow, win0.cap, changes, spec.Lt());
            if |r.0| < win.cap then InOrder(spec, win) else (win.rows, win.overflow) == r
  {
    OrderIsTotal(spec.cols);
    Visited(win0.rows, win0.overflow, win0.cap, changes, spec.Lt());
    AppliedSize(input, changes);
    var w, o := RunVisit(win0.rows, win0.overflow, win0.cap, changes, spec.Lt());
    var total := SumWeights(win0.total, changes);
    var cap := if spec.percent >= 0.0 then spec.DesiredCap(total) else win0.cap;
    w, o := Settle(w, o, cap, spec.Lt());
    win := Window(w, o, cap, total);
  }

  method ApplyFull(spec: Spec, win0: Window, ghost input: multiset<Row>, changes: seq<Change<Row>>) returns (win: Window)
    requires WindowOk(spec, false, win0, input)
    ensures WindowOk(spec, false, win, Applied(input, changes))
  {
    OrderIsTotal(spec.cols);
    assert multiset(win0.rows) == input;
    var w := RunFull(win0.rows, changes, spec.Lt());
    win := win0.(rows := w);
    assert multiset(w) + multiset{} == multiset(w);
  }

  lemma Answers(spec: Spec, bounded: bool, win: Window, input: multiset<Row>)
    requires WindowOk(spec, bounded, win, input) && InOrder(spec, win)
    ensures TopResult(spec, input, spec.Shown(win.rows, |input|))
  {
    OrderIsTotal(spec.cols);
    PrefixAnswers(spec.Lt(), spec.offset, spec.EffectiveLimit(|input|), spec.project, win.rows, win.overflow);
  }

  method Batch(spec: Spec, bounded: bool, win0: Window, ghost input: multiset<Row>, changes: seq<Change<Row>>)
    returns (win: Window, result: ZSet<Row>)
    requires WindowOk(spec, bounded, win0, input) && Deletable(input, changes)
    ensures WindowOk(spec, bounded, win, Applied(input, changes))
    ensures result == spec.Shown(win.rows, |Applied(input, changes)|)
    ensures !bounded ==> InOrder(spec, win) && TopResult(spec, Applied(input, changes), result)
    ensures bounded ==> Visits(spec, win0, changes, win)
    ensures bounded ==> (TopResult(spec, Applied(input, changes), result) <==> ShownRight(spec, win0,
              |Applied(input, changes)|, changes))
  {
    if bounded {
      win := ApplyBounded(spec, win0, input, changes);
    } else {
      win := ApplyFull(spec, win0, input, changes);
    }
    ghost var after := Applied(input, changes);
    assert !bounded ==> |win.rows| == |multiset(win.rows)| && multiset(win.rows) == after;
    result := Recompute(win.rows, spec, spec.EffectiveLimit(if bounded then win.total else |win.rows|));
    if InOrder(spec, win) {
      Answers(spec, bounded, win, after);
    }
  }

  ghost predicate Visits(spec: Spec, win0: Window, changes: seq<Change<Row>>, win: Window)
    requires win0.cap >= 1
  {
    var r := Visit(win0.rows, win0.overflow, win0.cap, changes, spec.Lt());
    if |r.0| < win.cap then InOrder(spec, win) else (win.rows, win.overflow) == r
  }

  // ---- for which batches every visiting order is right ----

  function CountAfter(n: nat, b: Changes<Row>): int {
    n + |Inserted(b)| - |Deleted(b)|
  }

  // Some row is exposed among the first rows of n1, n of them before.
  ghost predicate HidesRow(spec: Spec, n: nat, n1: nat, deleted: multiset<Row>, inserted: multiset<Row>) {
    && spec.EffectiveLimit(n1) > 0
    && exists y :: Exposes(deleted, inserted, spec.DesiredCap(n), spec.DesiredCap(n1), spec.Reach(n1), y, spec.Lt())
  }

  // Whether some order of the batch can hide a row of the result, read off
  // the batch and the number of rows.
  ghost predicate Hides(spec: Spec, n: nat, b: Changes<Row>) {
    CountAfter(n, b) >= 0 && HidesRow(spec, n, CountAfter(n, b), Deleted(b), Inserted(b))
  }

  lemma AppliedCount(input: multiset<Row>, changes: seq<Change<Row>>)
    requires Deletable(input, changes)
    ensures |Applied(input, changes)| == CountAfter(|input|, changes)
  {
    AppliedSize(input, changes);
    NetIs(changes);
  }

  lemma {:induction false} NetIs(changes: seq<Change<Row>>)
    ensures Net(changes) == |Inserted(changes)| - |Deleted(changes)|
  {
    if changes != [] {
      NetIs(changes[..|changes| - 1]);
    }
  }

  // Whatever the order.
  lemma NothingHidden(spec: Spec, win: Window, input: multiset<Row>, changes: Changes<Row>)
    requires WindowOk(spec, true, win, input) && InOrder(spec, win)
    requires IsDelta(changes) && Deletable(input, changes) && !Hides(spec, |input|, changes)
    ensures ShownRight(spec, win, |Applied(input, changes)|, changes)
  {
    OrderIsTotal(spec.cols);
    AppliedCount(input, changes);
    var n1 := |Applied(input, changes)|;
    LimitIsNat(spec, n1);
    UnexposedIsRight(spec.Lt(), spec.offset, spec.EffectiveLimit(n1), spec.project, win.rows, win.overflow, win.cap,
            spec.DesiredCap(n1), changes);
  }

  lemma LimitIsNat(spec: Spec, count: nat)
    requires spec.limit >= 0 || spec.percent >= 0.0
    ensures spec.EffectiveLimit(count) >= 0
  {
  }

  // A view over n rows with its window in order, about to visit the batch in
  // one order.
  ghost predicate Starts(spec: Spec, n: nat, b: Changes<Row>, win: Window, input: multiset<Row>, changes: Changes<Row>) {
    && WindowOk(spec, true, win, input) && InOrder(spec, win) && |input| == n
    && multiset(changes) == multiset(b) && Deletable(input, changes)
  }

  // Every window over n rows and every visiting order show the right result.
  ghost predicate AlwaysRight(spec: Spec, n: nat, b: Changes<Row>) {
    forall win, input, changes :: Starts(spec, n, b, win, input, changes) ==>
      ShownRight(spec, win, |Applied(input, changes)|, changes)
  }

  lemma HidesSame(spec: Spec, n: nat, b: Changes<Row>, changes: Changes<Row>)
    requires Deleted(changes) == Deleted(b) && Inserted(changes) == Inserted(b)
    ensures Hides(spec, n, changes) == Hides(spec, n, b)
  {
    var n1 := CountAfter(n, b);
    assert CountAfter(n, changes) == n1;
    if n1 >= 0 {
      var hidden := HidesRow(spec, n, n1, Deleted(b), Inserted(b));
      assert Hides(spec, n, changes) == hidden;
      assert Hides(spec, n, b) == hidden;
    }
  }

  lemma NothingHiddenInOrder(spec: Spec, n: nat, b: Changes<Row>, win: Window, input: multiset<Row>, changes: Changes<Row>)
    requires IsDelta(b) && !Hides(spec, n, b) && Starts(spec, n, b, win, input, changes)
    ensures ShownRight(spec, win, |Applied(input, changes)|, changes)
  {
    DeltaPermutes(b, changes);
    AmountsPermute(changes, b);
    HidesSame(spec, n, b, changes);
    NothingHidden(spec, win, input, changes);
  }

  lemma NothingHiddenIsRight(spec: Spec, n: nat, b: Changes<Row>)
    requires IsDelta(b) && !Hides(spec, n, b)
    ensures AlwaysRight(spec, n, b)
  {
    forall win, input, changes | Starts(spec, n, b, win, input, changes)
      ensures ShownRight(spec, win, |Applied(input, changes)|, changes)
    {
      NothingHiddenInOrder(spec, n, b, win, input, changes);
    }
  }

  lemma HiddenSomewhere(spec: Spec, n: nat, b: Changes<Row>, m: Row)
    requires IsDelta(b) && Hides(spec, n, b) && (spec.limit >= 0 || spec.percent >= 0.0) && TellsApart(spec.project)
    requires n >= |Deleted(b)| + spec.Reach(CountAfter(n, b)) && forall x :: x in Deleted(b) ==> spec.Lt()(m, x)
    ensures !AlwaysRight(spec, n, b)
  {
    var n1 := CountAfter(n, b);
    OrderIsTotal(spec.cols);
    var win, changes := WrongWindow(spec, n, n1, b, spec.DesiredCap(n), spec.DesiredCap(n1), spec.EffectiveLimit(n1), m);
    AmountsPermute(changes, b);
    StartsThere(spec, n, b, win, changes);
    AppliedCount(multiset(win.rows) + win.overflow, changes);
    NotShown(spec, win, n1, changes, spec.EffectiveLimit(n1), spec.DesiredCap(n1));
    WrongStart(spec, n, b, win, multiset(win.rows) + win.overflow, changes, n1);
  }

  lemma StartsThere(spec: Spec, n: nat, b: Changes<Row>, win: Window, changes: Changes<Row>)
    requires Sorted(win.rows, spec.Lt()) && InOrder(spec, win) && Tight(win.rows, win.overflow, win.cap)
    requires |multiset(win.rows) + win.overflow| == n == win.total && win.cap == spec.DesiredCap(n)
    requires multiset(changes) == multiset(b) && Deletable(multiset(win.rows) + win.overflow, changes)
    requires spec.limit >= 0 || spec.percent >= 0.0
    ensures Starts(spec, n, b, win, multiset(win.rows) + win.overflow, changes)
  {
  }

  lemma WrongWindow(spec: Spec, n: nat, n1: nat, b: Changes<Row>, cap: nat, cap1: nat, limit: nat, m: Row)
    returns (win: Window, changes: Changes<Row>)
    requires TotalOrder(spec.Lt()) && IsDelta(b) && TellsApart(spec.project) && limit > 0 && ReachOf(spec.offset, limit) <= cap1
    requires exists y :: Exposes(Deleted(b), Inserted(b), cap, cap1, ReachOf(spec.offset, limit), y, spec.Lt())
    requires n >= |Deleted(b)| + ReachOf(spec.offset, limit) && forall x :: x in Deleted(b) ==> spec.Lt()(m, x)
    ensures Sorted(win.rows, spec.Lt()) && InOrder(spec, win) && Tight(win.rows, win.overflow, cap)
    ensures |multiset(win.rows) + win.overflow| == n == win.total && win.cap == cap >= 1
    ensures multiset(changes) == multiset(b) && Deletable(multiset(win.rows) + win.overflow, changes)
    ensures !RightAfter(spec.Lt(), spec.offset, limit, spec.project, win.rows, win.overflow, cap, cap1, changes)
  {
    var y :| Exposes(Deleted(b), Inserted(b), cap, cap1, ReachOf(spec.offset, limit), y, spec.Lt());
    var w, o;
    w, o, changes := ExposedIsWrong(spec.Lt(), spec.offset, limit, spec.project, b, cap, cap1, y, m, n);
    win := Window(w, o, cap, n);
  }

  lemma NotShown(spec: Spec, win: Window, count: nat, changes: Changes<Row>, limit: int, cap1: nat)
    requires win.cap >= 1 && limit == spec.EffectiveLimit(count) && cap1 == spec.DesiredCap(count)
    requires !RightAfter(spec.Lt(), spec.offset, limit, spec.project, win.rows, win.overflow, win.cap, cap1, changes)
    ensures !ShownRight(spec, win, count, changes)
  {
  }

  lemma WrongStart(spec: Spec, n: nat, b: Changes<Row>, win: Window, input: multiset<Row>, changes: Changes<Row>, count: nat)
    requires Starts(spec, n, b, win, input, changes) && count == |Applied(input, changes)|
    requires !ShownRight(spec, win, count, changes)
    ensures !AlwaysRight(spec, n, b)
  {
  }

  // Over n rows, of which at least as many as the view reaches outlive the
  // batch: every window and every visiting order show the right result
  // exactly if the batch hides nothing.
  lemma EveryOrderRightIff(spec: Spec, n: nat, b: Changes<Row>, m: Row)
    requires IsDelta(b) && (spec.limit >= 0 || spec.percent >= 0.0) && TellsApart(spec.project)
    requires CountAfter(n, b) >= 0 && n >= |Deleted(b)| + spec.Reach(CountAfter(n, b))
    requires forall x :: x in Deleted(b) ==> spec.Lt()(m, x)
    ensures AlwaysRight(spec, n, b) <==> !Hides(spec, n, b)
  {
    if Hides(spec, n, b) {
      HiddenSomewhere(spec, n, b, m);
    } else {
      NothingHiddenIsRight(spec, n, b);
    }
  }

  // LIMIT n: the cap does not move, and the condition is about the batch
  // alone, for a table of any size.
  lemma LimitRightIff(spec: Spec, b: Changes<Row>, m: Row)
    requires IsDelta(b) && spec.percent < 0.0 && spec.limit >= 0 && TellsApart(spec.project)
    requires forall x :: x in Deleted(b) ==> spec.Lt()(m, x)
    ensures (forall n :: AlwaysRight(spec, n, b))
       <==> !HidesRow(spec, 0, 0, Deleted(b), Inserted(b))
  {
    if HidesRow(spec, 0, 0, Deleted(b), Inserted(b)) {
      var n := |Deleted(b)| + spec.Reach(0);
      LimitHides(spec, n, b);
      LimitSizes(spec, CountAfter(n, b));
      HiddenSomewhere(spec, n, b, m);
    } else {
      forall n ensures AlwaysRight(spec, n, b) {
        LimitHides(spec, n, b);
        NothingHiddenIsRight(spec, n, b);
      }
    }
  }

  lemma LimitSizes(spec: Spec, n: nat)
    requires spec.percent < 0.0
    ensures spec.EffectiveLimit(n) == spec.limit && spec.Reach(n) == spec.Reach(0) && spec.DesiredCap(n) == spec.DesiredCap(0)
  {
  }

  lemma LimitHides(spec: Spec, n: nat, b: Changes<Row>)
    requires spec.percent < 0.0
    ensures Hides(spec, n, b) <==> CountAfter(n, b) >= 0 && HidesRow(spec, 0, 0, Deleted(b), Inserted(b))
  {
    if CountAfter(n, b) >= 0 {
      LimitSizes(spec, n);
      LimitSizes(spec, 0);
      LimitSizes(spec, CountAfter(n, b));
    }
  }

  // ---- many batches ----

  // What happened since the window was last in order: the least cap, the
  // rows deleted and the rows inserted.
  datatype Since = Since(bound: nat, gone: nat, added: nat)

  ghost predicate Drifted(spec: Spec, win: Window, since: Since) {
    since.bound <= win.cap && Drift(win.rows, win.overflow, since.bound, since.gone, since.added, spec.Lt())
  }

  // Fewer rows deleted, or fewer inserted, since the window was last in
  // order than it holds beyond the reach of the view.
  ghost predicate Within(spec: Spec, win: Window, count: nat, since: Since) {
    since.gone + spec.Reach(count) <= since.bound || since.added + spec.Reach(count) <= win.cap
  }

  lemma WithinIsRight(spec: Spec, win: Window, input: multiset<Row>, since: Since)
    requires WindowOk(spec, true, win, input) && Drifted(spec, win, since) && Within(spec, win, |input|, since)
    ensures TopResult(spec, input, spec.Shown(win.rows, |input|))
  {
    if win.overflow == multiset{} {
      assert InOrder(spec, win);
      Answers(spec, true, win, input);
    } else {
      OrderIsTotal(spec.cols);
      LimitIsNat(spec, |input|);
      DriftAnswers(spec, win, spec.EffectiveLimit(|input|), since);
    }
  }

  lemma DriftAnswers(spec: Spec, win: Window, limit: nat, since: Since)
    requires TotalOrder(spec.Lt()) && Sorted(win.rows, spec.Lt()) && Drifted(spec, win, since)
    requires |win.rows| >= win.cap >= ReachOf(spec.offset, limit)
    requires since.gone + ReachOf(spec.offset, limit) <= since.bound || since.added + ReachOf(spec.offset, limit) <= win.cap
    ensures Answer(spec.Lt(), spec.offset, limit, spec.project, multiset(win.rows) + win.overflow,
              Tally(Slice(win.rows, spec.offset, limit), spec.project))
  {
    forall y | y in win.overflow ensures Low(win.rows, y, spec.Lt()) >= ReachOf(spec.offset, limit) {
      assert DriftAt(win.rows, win.overflow, y, since.bound, since.gone, since.added, spec.Lt());
    }
    ReachAnswers(spec.Lt(), spec.offset, limit, spec.project, win.rows, win.overflow);
  }

  // None after a refill, otherwise the batch's rows on top.
  ghost predicate Carried(spec: Spec, win0: Window, changes: Changes<Row>, win: Window, since0: Since, since: Since)
    requires win0.cap >= 1
  {
    if |Visit(win0.rows, win0.overflow, win0.cap, changes, spec.Lt()).0| < win.cap then
      InOrder(spec, win) && since == Since(win.cap, 0, 0)
    else
      since == Since(Min(since0.bound, win.cap), since0.gone + |Deleted(changes)|, since0.added + |Inserted(changes)|)
  }

  lemma Carry(spec: Spec, win0: Window, input: multiset<Row>, changes: Changes<Row>, win: Window, since0: Since)
    returns (since: Since)
    requires WindowOk(spec, true, win0, input) && WindowOk(spec, true, win, Applied(input, changes))
    requires Visits(spec, win0, changes, win) && Drifted(spec, win0, since0)
    ensures Drifted(spec, win, since) && Carried(spec, win0, changes, win, since0, since)
  {
    var lt := spec.Lt();
    OrderIsTotal(spec.cols);
    if |Visit(win0.rows, win0.overflow, win0.cap, changes, lt).0| < win.cap {
      since := Since(win.cap, 0, 0);
      DriftStarts(win.rows, win.overflow, win.cap, lt);
    } else {
      since := Since(Min(since0.bound, win.cap), since0.gone + |Deleted(changes)|, since0.added + |Inserted(changes)|);
      DriftVisit(win0.rows, win0.overflow, win0.cap, changes, since0.bound, since0.gone, since0.added, lt, since.gone,
              since.added);
      DriftLoosens(win.rows, win.overflow, since0.bound, since.bound, since.gone, since.added, lt);
    }
  }

  lemma DriftLoosens(w: seq<Row>, o: multiset<Row>, bound0: nat, bound: nat, gone: nat, added: nat, lt: (Row, Row) -> bool)
    requires Drift(w, o, bound0, gone, added, lt) && bound <= bound0
    ensures Drift(w, o, bound, gone, added, lt)
  {
    forall y ensures DriftAt(w, o, y, bound, gone, added, lt) {
      assert DriftAt(w, o, y, bound0, gone, added, lt);
    }
  }

  // When the result of a batch is right.
  ghost predicate Outcomes(spec: Spec, win0: Window, input: multiset<Row>, changes: Changes<Row>, win: Window,
                           result: ZSet<Row>, since: Since)
    requires win0.cap >= 1
  {
    var after := Applied(input, changes);
    var right := TopResult(spec, after, result);
    && (right <==> ShownRight(spec, win0, |after|, changes))
    && (Within(spec, win, |after|, since) ==> right)
    && (InOrder(spec, win0) && IsDelta(changes) && !Hides(spec, |input|, changes) ==> right)
    && (InOrder(spec, win0) && InsertionsFirst(changes) ==> InOrder(spec, win) && right)
  }

  lemma HaveOutcomes(spec: Spec, win0: Window, input: multiset<Row>, changes: Changes<Row>, win: Window, result: ZSet<Row>,
                     since: Since)
    requires WindowOk(spec, true, win0, input) && Deletable(input, changes) && WindowOk(spec, true, win, Applied(input, changes))
    requires Visits(spec, win0, changes, win) && Drifted(spec, win, since)
    requires result == spec.Shown(win.rows, |Applied(input, changes)|)
    requires TopResult(spec, Applied(input, changes), result) <==> ShownRight(spec, win0, |Applied(input, changes)|, changes)
    ensures Outcomes(spec, win0, input, changes, win, result, since)
  {
    if Within(spec, win, |Applied(input, changes)|, since) {
      WithinIsRight(spec, win, Applied(input, changes), since);
    }
    if InOrder(spec, win0) && IsDelta(changes) && !Hides(spec, |input|, changes) {
      NothingHidden(spec, win0, input, changes);
    }
    if InOrder(spec, win0) && InsertionsFirst(changes) {
      StaysInOrder(spec, win0, input, changes, win);
      Answers(spec, true, win, Applied(input, changes));
    }
  }

  lemma StaysInOrder(spec: Spec, win0: Window, input: multiset<Row>, changes: Changes<Row>, win: Window)
    requires WindowOk(spec, true, win0, input) && Deletable(input, changes) && Visits(spec, win0, changes, win)
    requires InOrder(spec, win0) && InsertionsFirst(changes)
    ensures InOrder(spec, win)
  {
    OrderIsTotal(spec.cols);
    VisitedOrder(win0.rows, win0.overflow, win0.cap, changes, spec.Lt());
  }

  // ---- the view ----

  ghost predicate ViewOk(spec: Spec, bounded: bool, win: Window, input: multiset<Row>, result: ZSet<Row>, since: Since) {
    && WindowOk(spec, bounded, win, input)
    && result == spec.Shown(win.rows, |input|)
    && (bounded ==> Drifted(spec, win, since))
  }

  ghost predicate Stepped(spec: Spec, bounded: bool, win0: Window, input: multiset<Row>, since0: Since, changes: Changes<Row>,
                          win: Window, result: ZSet<Row>, since: Since) {
    if bounded then
      && win0.cap >= 1 && Visits(spec, win0, changes, win) && Carried(spec, win0, changes, win, since0, since)
      && Outcomes(spec, win0, input, changes, win, result, since)
    else
      InOrder(spec, win) && TopResult(spec, Applied(input, changes), result)
  }

  method Step(spec: Spec, bounded: bool, win0: Window, ghost input: multiset<Row>, ghost since0: Since, changes: Changes<Row>)
    returns (win: Window, result: ZSet<Row>, ghost since: Since)
    requires WindowOk(spec, bounded, win0, input) && (bounded ==> Drifted(spec, win0, since0)) && Deletable(input, changes)
    ensures ViewOk(spec, bounded, win, Applied(input, changes), result, since)
    ensures Stepped(spec, bounded, win0, input, since0, changes, win, result, since)
  {
    win, result := Batch(spec, bounded, win0, input, changes);
    since := since0;
    if bounded {
      since := Carry(spec, win0, input, changes, win, since0);
      HaveOutcomes(spec, win0, input, changes, win, result, since);
    }
  }

  class NativeLimitView {
    const spec: Spec
    const bounded: bool
    var win: Window
    var result: ZSet<Row>
    var delta: ZSet<Row>
    ghost var input: multiset<Row>
    ghost var since: Since

    ghost predicate Valid()
      reads this
    {
      ViewOk(spec, bounded, win, input, result, since)
    }

    constructor (spec: Spec, bounded: bool)
      requires bounded ==> spec.limit >= 0 || spec.percent >= 0.0
      ensures Valid() && InOrder(spec, win) && this.spec == spec && this.bounded == bounded && input == multiset{}
      ensures win == Window([], multiset{}, spec.DesiredCap(0), 0) && since == Since(win.cap, 0, 0)
    {
      this.spec, this.bounded := spec, bounded;
      win := Window([], multiset{}, spec.DesiredCap(0), 0);
      result, delta := map[], map[];
      input := multiset{};
      since := Since(spec.DesiredCap(0), 0, 0);
      assert Slice([], spec.offset, spec.EffectiveLimit(0)) == [];
    }

    // apply_changes, both paths.
    method Apply(changes: Changes<Row>)
      requires Valid() && Deletable(input, changes)
      modifies this
      ensures Valid() && input == Applied(old(input), changes)
      ensures delta == Minus(result, old(result))
      ensures Stepped(spec, bounded, old(win), old(input), old(since), changes, win, result, since)
    {
      var next, now, after := Step(spec, bounded, win, input, since, changes);
      delta := Minus(now, result);
      input, win, result, since := Applied(input, changes), next, now, after;
    }
  }

  // Bounded and unbounded views of the same input show the same result.
  lemma BoundedIsFull(spec: Spec, input: multiset<Row>, a: ZSet<Row>, b: ZSet<Row>)
    requires TopResult(spec, input, a) && TopResult(spec, input, b)
    ensures a == b
  {
    OrderIsTotal(spec.cols);
    var s := SortedListing(input, spec.Lt());
  }

  // ---- the visiting order matters ----

  function Copies(row: Row, n: nat): seq<Row> {
    if n == 0 then [] else Copies(row, n - 1) + [row]
  }

  lemma {:induction false} CopiesAre(row: Row, n: nat)
    ensures |Copies(row, n)| == n && forall i :: 0 <= i < n ==> Copies(row, n)[i] == row
  {
    if n > 0 {
      CopiesAre(row, n - 1);
    }
  }

  lemma {:induction false} CopiesDeleted(row: Row, n: nat, o: multiset<Row>, cap: nat, lt: (Row, Row) -> bool)
    requires cap >= 1
    ensures Repeat(Copies(row, n), o, cap, row, 0 - n, lt) == ([], o)
  {
    if n > 0 {
      CopiesAre(row, n);
      CopiesAre(row, n - 1);
      assert RemoveFirst(Copies(row, n), row) == Copies(row, n)[1..] == Copies(row, n - 1);
      CopiesDeleted(row, n - 1, o, cap, lt);
    }
  }

  lemma {:induction false} CopiesInserted(row: Row, k: nat, n: nat, o: multiset<Row>, cap: nat, lt: (Row, Row) -> bool)
    requires k + n <= cap && cap >= 1
    ensures Repeat(Copies(row, k), o, cap, row, n, lt) == (Copies(row, k + n), o)
    decreases n
  {
    if n > 0 {
      CopiesAre(row, k);
      CopiesAre(row, k + 1);
      PlacedCopy(row, k, k, lt);
      CopiesInserted(row, k + 1, n - 1, o, cap, lt);
    }
  }

  lemma {:induction false} PlacedCopy(row: Row, k: nat, m: nat, lt: (Row, Row) -> bool)
    requires m <= k
    ensures Place(Copies(row, m), row, lt) == Copies(row, m + 1)
    decreases m
  {
    CopiesAre(row, m);
    CopiesAre(row, m + 1);
    if m > 0 {
      PlacedCopy(row, k, m - 1, lt);
      assert Copies(row, m)[..m - 1] == Copies(row, m - 1);
    }
  }

  lemma TwoChanges(w: seq<Row>, o: multiset<Row>, cap: nat, a: Change<Row>, b: Change<Row>, lt: (Row, Row) -> bool)
    requires cap >= 1
    ensures var r := Repeat(w, o, cap, a.0, a.1, lt);
            Visit(w, o, cap, [a, b], lt) == Repeat(r.0, r.1, cap, b.0, b.1, lt)
  {
    var none: seq<Change<Row>> := [];
    assert [a, b][..1] == [a] && [a][..0] == none;
    assert Visit(w, o, cap, none, lt) == (w, o);
    assert Visit(w, o, cap, [a], lt) == Repeat(w, o, cap, a.0, a.1, lt);
  }

  // A full window of `cap` equal rows, one larger row in the log; one batch
  // deletes the window and inserts `cap` still larger rows. Visited
  // deletions first, the window fills with the inserted rows although the
  // log holds a smaller one, and no refill follows.
  lemma DeletionsFirstLosesARow(cap: nat, a: Row, b: Row, c: Row, lt: (Row, Row) -> bool)
    requires cap >= 1 && lt(b, c)
    ensures var r := Visit(Copies(a, cap), multiset{b}, cap, [(a, 0 - cap), (c, cap)], lt);
            r == (Copies(c, cap), multiset{b}) && |r.0| == cap && !OrderOk(r.0, r.1, lt)
  {
    CopiesDeleted(a, cap, multiset{b}, cap, lt);
    CopiesInserted(c, 0, cap, multiset{b}, cap, lt);
    TwoChanges(Copies(a, cap), multiset{b}, cap, (a, 0 - cap), (c, cap), lt);
    CopiesAre(c, cap);
    assert c in Copies(c, cap) by { assert Copies(c, cap)[0] == c; }
    assert b in multiset{b};
  }

  lemma TwoApplied(input: multiset<Row>, a: Change<Row>, b: Change<Row>)
    requires a.0 != b.0 && input[a.0] + a.1 >= 0 && input[b.0] + b.1 >= 0
    ensures Deletable(input, [a, b])
    ensures Applied(input, [a, b]) == input[a.0 := input[a.0] + a.1][b.0 := input[b.0] + b.1]
  {
    var none: Changes<Row> := [];
    assert [a, b][..0] == none && [a, b][..1] == [a] && [a][..0] == none;
    assert Applied(input, none) == input;
    assert Applied(input, [a]) == input[a.0 := input[a.0] + a.1];
  }

  // `cap` rows a and one larger row b fill the window and the log.
  lemma FirstRows(cap: nat, a: Row, b: Row, lt: (Row, Row) -> bool)
    requires cap >= 1 && a != b && !lt(b, a)
    ensures Deletable(multiset{}, [(a, cap), (b, 1)])
    ensures Applied(multiset{}, [(a, cap), (b, 1)]) == multiset{}[a := cap][b := 1]
    ensures Visit([], multiset{}, cap, [(a, cap), (b, 1)], lt) == (Copies(a, cap), multiset{b})
  {
    TwoApplied(multiset{}, (a, cap), (b, 1));
    CopiesInserted(a, 0, cap, multiset{}, cap, lt);
    CopiesAre(a, cap);
    TwoChanges([], multiset{}, cap, (a, cap), (b, 1), lt);
    OneLogged(Copies(a, cap), cap, b, 1, lt);
  }

  lemma OneLogged(w: seq<Row>, cap: nat, b: Row, n: int, lt: (Row, Row) -> bool)
    requires |w| == cap >= 1 && !lt(b, w[cap - 1]) && n == 1
    ensures Repeat(w, multiset{}, cap, b, n, lt) == (w, multiset{b})
  {
    assert multiset{} + multiset{b} == multiset{b};
    assert InsertOne(w, multiset{}, cap, b, lt) == (w, multiset{b});
    assert Repeat(w, multiset{b}, cap, b, n - 1, lt) == (w, multiset{b});
  }

  lemma RowsReplaced(cap: nat, a: Row, b: Row, c: Row, lt: (Row, Row) -> bool)
    requires cap >= 1 && a != b && a != c && b != c && lt(b, c)
    ensures var input := multiset{}[a := cap][b := 1];
            && Deletable(input, [(a, 0 - cap), (c, cap)])
            && Applied(input, [(a, 0 - cap), (c, cap)]) == multiset{}[b := 1][c := cap]
    ensures Visit(Copies(a, cap), multiset{b}, cap, [(a, 0 - cap), (c, cap)], lt) == (Copies(c, cap), multiset{b})
  {
    TwoApplied(multiset{}[a := cap][b := 1], (a, 0 - cap), (c, cap));
    DeletionsFirstLosesARow(cap, a, b, c, lt);
  }

  lemma OneShown(s: seq<Row>, x: Row, project: Row -> Row)
    requires s != [] && s[0] == x
    ensures Tally(Slice(s, 0, 1), project) == map[project(x) := 1]
  {
    assert Slice(s, 0, 1) == [x];
    assert [x][..0] == [];
  }

  lemma SmallestIsShown(lt: (Row, Row) -> bool, project: Row -> Row, b: Row, c: Row, n: nat)
    requires TotalOrder(lt) && lt(b, c)
    ensures Answer(lt, 0, 1, project, multiset{}[b := 1][c := n], map[project(b) := 1])
  {
    forall s: seq<Row> | Sorted(s, lt) && multiset(s) == multiset{}[b := 1][c := n]
      ensures Tally(Slice(s, 0, 1), project) == map[project(b) := 1]
    {
      assert b in multiset(s);
      var i :| 0 <= i < |s| && s[i] == b;
      assert s[0] in multiset(s);
      OneShown(s, b, project);
    }
  }

  // LIMIT 1 over 65 rows 0 and one row 1; the batch deletes the rows 0 and
  // inserts 65 rows 2, deletions visited first: the view shows a row 2,
  // although the smallest row is 1.
  method LimitOneShowsTheWrongRow(project: Row -> Row) returns (view: NativeLimitView)
    ensures view.spec == Spec(1, -1.0, 0, [SortColumn(0, true, false)], project) && view.bounded
    ensures view.input == multiset{}[[Val(1)] := 1][[Val(2)] := 65]
    ensures view.result == map[project([Val(2)]) := 1]
    ensures TopResult(view.spec, view.input, map[project([Val(1)]) := 1])
  {
    view := ReplaceWindow(Spec(1, -1.0, 0, [SortColumn(0, true, false)], project), 65, [Val(0)], [Val(1)], [Val(2)]);
  }

  // The window's rows deleted and as many rows beyond the log inserted.
  method ReplaceWindow(spec: Spec, cap: nat, a: Row, b: Row, c: Row) returns (view: NativeLimitView)
    requires spec.limit == 1 && spec.percent < 0.0 && spec.offset == 0 && cap == 65
    requires spec.Lt()(a, b) && spec.Lt()(b, c) && spec.Lt()(a, c)
    ensures view.spec == spec && view.bounded && view.input == multiset{}[b := 1][c := cap]
    ensures view.result == map[spec.project(c) := 1]
    ensures TopResult(spec, view.input, map[spec.project(b) := 1])
  {
    OrderIsTotal(spec.cols);
    view := new NativeLimitView(spec, true);
    FirstRows(cap, a, b, spec.Lt());
    view.Apply([(a, cap), (b, 1)]);
    CopiesAre(a, cap);
    RowsReplaced(cap, a, b, c, spec.Lt());
    view.Apply([(a, 0 - cap), (c, cap)]);
    CopiesAre(c, cap);
    OneShown(view.win.rows, c, spec.project);
    SmallestIsShown(spec.Lt(), spec.project, b, c, cap);
  }
}
