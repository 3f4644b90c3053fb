// What ORDER BY and LIMIT ask for, written out from the values of the rows,
// and that the LIMIT views show it (include/dbsp_duckdb_types.hpp).
module LimitLaws {
  import opened ZSets
  import opened Rows
  import opened Counting
  import opened Sorting
  import opened RowOrder
  import opened TopKWindow
  import opened VisitingOrders
  import opened ShownRows
  import opened LimitViews

  // ---- the order ----

  // The row with value a stands before the one with value b.
  predicate StandsFirst(col: SortColumn, a: Value, b: Value) {
    match (a, b)
    case (Null, Null) => false
    case (Null, Val(_)) => col.nullsFirst
    case (Val(_), Null) => !col.nullsFirst
    case (Val(x), Val(y)) => (col.ascending && x < y) || (!col.ascending && y < x)
  }

  // Both rows have the same value in a sort column, or neither has it.
  predicate Tied(cols: seq<SortColumn>, a: Row, b: Row, j: nat)
    requires j < |cols| && |a| == |b|
  {
    cols[j].idx < |a| ==> a[cols[j].idx] == b[cols[j].idx]
  }

  // The first sort column in which two rows differ decides.
  lemma {:induction false} FirstDifferenceDecides(cols: seq<SortColumn>, a: Row, b: Row, c: nat)
    requires |a| == |b| && c < |cols| && cols[c].idx < |a| && a[cols[c].idx] != b[cols[c].idx]
    requires forall j :: 0 <= j < c ==> Tied(cols, a, b, j)
    ensures OrderOf(cols)(a, b) <==> StandsFirst(cols[c], a[cols[c].idx], b[cols[c].idx])
  {
    if c > 0 {
      assert Tied(cols, a, b, 0);
      forall j | 0 <= j < c - 1 ensures Tied(cols[1..], a, b, j) {
        assert Tied(cols, a, b, j + 1);
      }
      FirstDifferenceDecides(cols[1..], a, b, c - 1);
    }
  }

  // With every sort column tied, the first difference of the rows: the
  // smaller value, and NULL last.
  lemma {:induction false} TiesGoByTheRow(cols: seq<SortColumn>, a: Row, b: Row, p: nat)
    requires |a| == |b| && p < |a| && a[..p] == b[..p] && a[p] != b[p]
    requires forall j :: 0 <= j < |cols| ==> Tied(cols, a, b, j)
    ensures OrderOf(cols)(a, b) <==> a[p] != Null && (b[p] == Null || a[p].v < b[p].v)
  {
    if cols == [] {
      RowsByFirstDifference(a, b, p);
    } else {
      assert Tied(cols, a, b, 0);
      forall j | 0 <= j < |cols| - 1 ensures Tied(cols[1..], a, b, j) {
        assert Tied(cols, a, b, j + 1);
      }
      TiesGoByTheRow(cols[1..], a, b, p);
    }
  }

  lemma {:induction false} RowsByFirstDifference(a: Row, b: Row, p: nat)
    requires |a| == |b| && p < |a| && a[..p] == b[..p] && a[p] != b[p]
    ensures RowLess(a, b) <==> a[p] != Null && (b[p] == Null || a[p].v < b[p].v)
  {
    if p > 0 {
      assert a[0] == a[..p][0] && b[0] == b[..p][0];
      assert a[1..][..p - 1] == a[..p][1..] && b[1..][..p - 1] == b[..p][1..];
      RowsByFirstDifference(a[1..], b[1..], p - 1);
    }
  }

  // ---- LIMIT and OFFSET ----

  // LIMIT n, or the largest number of rows within p percent.
  lemma LimitIs(spec: Spec, count: nat)
    ensures spec.percent < 0.0 ==> spec.EffectiveLimit(count) == spec.limit
    ensures spec.percent >= 0.0 ==>
              var share := spec.percent * count as real / 100.0;
              spec.EffectiveLimit(count) as real <= share < (spec.EffectiveLimit(count) + 1) as real
  {
    PercentOf(spec.percent, count as real);
  }

  lemma PercentOf(p: real, n: real)
    ensures p / 100.0 * n == p * n / 100.0
  {
  }

  // How many of the positions [from, to) lie in [lo, hi).
  function Overlap(from: int, to: int, lo: int, hi: int): int {
    var a, b := if from < lo then lo else from, if to < hi then to else hi;
    if a < b then b - a else 0
  }

  // Where the copies of x stand in a sorted listing.
  lemma PositionsOf<T(!new)>(s: seq<T>, x: T, lt: Order<T>, i: nat)
    requires TotalOrder(lt) && Sorted(s, lt) && i < |s|
    ensures var before := Count(multiset(s), Below(x, lt));
            s[i] == x <==> before <= i < before + multiset(s)[x]
  {
    UpToIsBelowOrEqual(multiset(s), x, lt);
    LowIsPrefix(s, x, lt, i);
    BelowIsPrefix(s, x, lt, i);
  }

  lemma CountSplit<T(!new)>(s: seq<T>, p: T -> bool, i: nat)
    requires i <= |s|
    ensures Count(multiset(s), p) == Count(multiset(s[..i]), p) + Count(multiset(s[i..]), p)
  {
    assert s == s[..i] + s[i..];
    CountPlus(multiset(s[..i]), multiset(s[i..]), p);
  }

  lemma AllCount<T(!new)>(s: seq<T>, p: T -> bool)
    requires forall j :: 0 <= j < |s| ==> p(s[j])
    ensures Count(multiset(s), p) == |s|
  {
    forall y | y in multiset(s) ensures p(y) {
      assert y in s;
    }
    CountAll(multiset(s), p);
  }

  lemma NoneCount<T(!new)>(s: seq<T>, p: T -> bool)
    requires forall j :: 0 <= j < |s| ==> !p(s[j])
    ensures Count(multiset(s), p) == 0
  {
    forall y | y in multiset(s) ensures !p(y) {
      assert y in s;
    }
    CountNone(multiset(s), p);
  }

  lemma AtLeast<T(!new)>(s: seq<T>, p: T -> bool, i: nat)
    requires i <= |s| && forall j :: 0 <= j < i ==> p(s[j])
    ensures Count(multiset(s), p) >= i
  {
    CountSplit(s, p, i);
    AllCount(s[..i], p);
  }

  lemma AtMost<T(!new)>(s: seq<T>, p: T -> bool, i: nat)
    requires i <= |s| && forall y :: y in s[i..] ==> !p(y)
    ensures Count(multiset(s), p) <= i
  {
    CountSplit(s, p, i);
    NoneCount(s[i..], p);
  }

  // The rows before x are the first ones of a sorted listing.
  lemma BelowIsPrefix<T(!new)>(s: seq<T>, x: T, lt: Order<T>, i: nat)
    requires TotalOrder(lt) && Sorted(s, lt) && i < |s|
    ensures i < Count(multiset(s), Below(x, lt)) <==> lt(s[i], x)
  {
    if lt(s[i], x) {
      forall j | 0 <= j < i + 1 ensures Below(x, lt)(s[j]) {
        assert j == i || !lt(s[i], s[j]);
      }
      AtLeast(s, Below(x, lt), i + 1);
    } else {
      forall y | y in s[i..] ensures !Below(x, lt)(y) {
        var j :| i <= j < |s| && s[j] == y;
        assert j == i || !lt(s[j], s[i]);
      }
      AtMost(s, Below(x, lt), i);
    }
  }

  lemma {:induction false} CopiesWithin<T(!new)>(s: seq<T>, x: T, lo: nat, hi: nat, from: int, to: int)
    requires lo <= hi <= |s| && forall i :: lo <= i < hi ==> (s[i] == x <==> from <= i < to)
    ensures multiset(s[lo..hi])[x] == Overlap(from, to, lo, hi)
    decreases hi
  {
    if lo < hi {
      CopiesWithin(s, x, lo, hi - 1, from, to);
      assert s[lo..hi] == s[lo..hi - 1] + [s[hi - 1]];
    } else {
      assert s[lo..hi] == [];
    }
  }

  // The places asked for, and those of a listing of n rows among them.
  function Asked(offset: int, limit: int, n: nat): (int, int) {
    var from := if offset < 0 then 0 else offset;
    (from, if limit < 0 then n else from + limit)
  }

  lemma Clipped(a: int, b: int, offset: int, limit: int, s: seq<Row>) returns (lo: nat, hi: nat)
    requires 0 <= a <= b <= |s|
    ensures lo <= hi <= |s| && Slice(s, offset, limit) == s[lo..hi]
    ensures Overlap(a, b, lo, hi) == Overlap(a, b, Asked(offset, limit, |s|).0, Asked(offset, limit, |s|).1)
  {
    var from := Asked(offset, limit, |s|).0;
    lo := if from < |s| then from else |s|;
    hi := if limit < 0 then |s| else if lo + limit < |s| then lo + limit else |s|;
  }

  lemma CopiesStand<T(!new)>(s: seq<T>, x: T, lt: Order<T>, before: nat, after: nat)
    requires TotalOrder(lt) && Sorted(s, lt)
    requires before == Count(multiset(s), Below(x, lt)) && after == before + multiset(s)[x]
    ensures after <= |s| && forall i :: 0 <= i < |s| ==> (s[i] == x <==> before <= i < after)
  {
    forall i | 0 <= i < |s| ensures s[i] == x <==> before <= i < after {
      PositionsOf(s, x, lt, i);
    }
    UpToIsBelowOrEqual(multiset(s), x, lt);
    assert Low(s, x, lt) <= |s|;
  }

  lemma SliceCopies(s: seq<Row>, offset: int, limit: int, x: Row, before: nat, after: nat)
    requires before <= after <= |s| && forall i :: 0 <= i < |s| ==> (s[i] == x <==> before <= i < after)
    ensures var asked := Asked(offset, limit, |s|);
            multiset(Slice(s, offset, limit))[x] == Overlap(before, after, asked.0, asked.1)
  {
    var lo, hi := Clipped(before, after, offset, limit, s);
    CopiesWithin(s, x, lo, hi, before, after);
  }

  lemma AnswerWeight(lt: Order<Row>, offset: int, limit: int, project: Row -> Row, input: multiset<Row>, result: ZSet<Row>, x: Row)
    returns (s: seq<Row>)
    requires TotalOrder(lt) && TellsApart(project) && Answer(lt, offset, limit, project, input, result)
    ensures Sorted(s, lt) && multiset(s) == input && |s| == |input|
    ensures W(result, project(x)) == multiset(Slice(s, offset, limit))[x]
  {
    s := SortedListing(input, lt);
    assert |s| == |multiset(s)|;
    TallyHas(Slice(s, offset, limit), project, x);
  }

  // A row is shown as often as its places in the order, known from how many
  // rows stand before it, are places asked for.
  predicate ShowsItsPlaces(before: nat, copies: nat, rows: nat, offset: int, limit: int, shown: int) {
    var asked := Asked(offset, limit, rows);
    shown == Overlap(before, before + copies, asked.0, asked.1)
  }

  lemma ListedCopies(s: seq<Row>, x: Row, lt: Order<Row>, offset: int, limit: int, before: nat)
    requires TotalOrder(lt) && Sorted(s, lt) && before == Count(multiset(s), Below(x, lt))
    ensures ShowsItsPlaces(before, multiset(s)[x], |s|, offset, limit, multiset(Slice(s, offset, limit))[x])
  {
    var after := before + multiset(s)[x];
    CopiesStand(s, x, lt, before, after);
    SliceCopies(s, offset, limit, x, before, after);
  }

  lemma ShownCopies(spec: Spec, input: multiset<Row>, result: ZSet<Row>, x: Row, before: nat)
    requires TopResult(spec, input, result) && TellsApart(spec.project)
    requires before == Count(input, Below(x, spec.Lt()))
    ensures ShowsItsPlaces(before, input[x], |input|, spec.offset, spec.EffectiveLimit(|input|), W(result, spec.project(x)))
  {
    OrderIsTotal(spec.cols);
    var s := AnswerWeight(spec.Lt(), spec.offset, spec.EffectiveLimit(|input|), spec.project, input, result, x);
    ListedCopies(s, x, spec.Lt(), spec.offset, spec.EffectiveLimit(|input|), before);
  }

  // ---- LIMIT 1 over one sort column ----

  // What the shown value must be among those of the input: no other stands
  // before it.
  predicate Extreme(col: SortColumn, v: Value, u: Value) {
    match (v, u)
    case (Val(x), Val(y)) => if col.ascending then x <= y else y <= x
    case (Null, Val(_)) => col.nullsFirst
    case (Val(_), Null) => !col.nullsFirst
    case (Null, Null) => true
  }

  // ORDER BY one column LIMIT 1: the largest value (descending) or the
  // smallest one (ascending), NULLs where they were asked to be.
  lemma LimitOneIsExtreme(spec: Spec, input: multiset<Row>, result: ZSet<Row>, width: nat) returns (r: Row)
    requires TopResult(spec, input, result) && spec.limit == 1 && spec.percent < 0.0 && spec.offset == 0
    requires |spec.cols| == 1 && spec.cols[0].idx < width && input != multiset{} && forall x :: x in input ==> |x| == width
    ensures r in input && result == map[spec.project(r) := 1]
    ensures forall u :: u in input ==> Extreme(spec.cols[0], r[spec.cols[0].idx], u[spec.cols[0].idx])
  {
    OrderIsTotal(spec.cols);
    var s := SortedListing(input, spec.Lt());
    assert |s| == |multiset(s)|;
    r := s[0];
    assert r in multiset(s);
    OneShown(s, r, spec.project);
    forall u | u in input ensures Extreme(spec.cols[0], r[spec.cols[0].idx], u[spec.cols[0].idx]) {
      assert u in multiset(s);
      var i :| 0 <= i < |s| && s[i] == u;
      assert i == 0 || !spec.Lt()(u, r);
      if u[spec.cols[0].idx] != r[spec.cols[0].idx] {
        FirstDifferenceDecides(spec.cols, u, r, 0);
      }
    }
  }

  // So it is in every reachable state of the unbounded view.
  lemma UnboundedShowsExtreme(view: NativeLimitView, width: nat) returns (r: Row)
    requires view.Valid() && !view.bounded && view.spec.limit == 1 && view.spec.percent < 0.0 && view.spec.offset == 0
    requires |view.spec.cols| == 1 && view.spec.cols[0].idx < width
    requires view.input != multiset{} && forall x :: x in view.input ==> |x| == width
    ensures r in view.input && view.result == map[view.spec.project(r) := 1]
    ensures forall u :: u in view.input ==> Extreme(view.spec.cols[0], r[view.spec.cols[0].idx], u[view.spec.cols[0].idx])
  {
    Answers(view.spec, false, view.win, view.input);
    r := LimitOneIsExtreme(view.spec, view.input, view.result, width);
  }

  // ---- the slack ----

  // Up to 64 deletions since the window was last in order, or as many as the
  // limit, or that many insertions, never show.
  lemma ChurnStaysRight(view: NativeLimitView, churn: nat)
    requires view.Valid() && view.bounded
    requires churn <= 64 || churn <= view.spec.EffectiveLimit(|view.input|)
    requires (view.since.gone <= churn && view.since.bound == view.win.cap) || view.since.added <= churn
    ensures TopResult(view.spec, view.input, view.result)
  {
    var count := |view.input|;
    LimitIsNat(view.spec, count);
    SlackIs(view.spec, count, churn);
    WithinIsRight(view.spec, view.win, view.input, view.since);
  }

  lemma SlackIs(spec: Spec, count: nat, churn: nat)
    requires churn <= 64 || churn <= spec.EffectiveLimit(count)
    ensures churn + spec.Reach(count) <= spec.DesiredCap(count)
  {
  }
}
