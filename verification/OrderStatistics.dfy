// Order statistics over a value -> count map, and the ordered lists of
// STRING_AGG / ARRAY_AGG (include/dbsp_plan_aggregate.hpp).
module OrderStatistics {
  import opened Rows

  // The count map in key order: strictly increasing values, positive counts.
  datatype Count = Count(v: real, n: nat)

  ghost predicate CountMap(cs: seq<Count>) {
    && (forall i :: 0 <= i < |cs| ==> cs[i].n > 0)
    && forall i, j :: 0 <= i < j < |cs| ==> cs[i].v < cs[j].v
  }

  function Copies(v: real, n: nat): (r: seq<real>)
    ensures |r| == n && forall i :: 0 <= i < n ==> r[i] == v
  {
    seq(n, _ => v)
  }

  // Every value as often as its count: the sorted sequence itself.
  function Expand(cs: seq<Count>): seq<real> {
    if cs == [] then [] else Expand(cs[..|cs| - 1]) + Copies(cs[|cs| - 1].v, cs[|cs| - 1].n)
  }

  ghost predicate Ascending(s: seq<real>) {
    forall i, j :: 0 <= i <= j < |s| ==> s[i] <= s[j]
  }

  lemma {:induction false} ExpandBound(cs: seq<Count>)
    requires CountMap(cs)
    ensures Ascending(Expand(cs))
    ensures forall i :: 0 <= i < |Expand(cs)| ==> Expand(cs)[i] <= cs[|cs| - 1].v
    ensures cs != [] ==> Expand(cs) != []
  {
    if cs != [] {
      ExpandBound(cs[..|cs| - 1]);
    }
  }

  lemma {:induction false} ExpandPrefix(cs: seq<Count>, i: nat)
    requires i <= |cs|
    ensures Expand(cs[..i]) <= Expand(cs)
  {
    if i < |cs| {
      assert cs[..|cs| - 1][..i] == cs[..i];
      ExpandPrefix(cs[..|cs| - 1], i);
    } else {
      assert cs[..i] == cs;
    }
  }

  // total_of.
  method TotalOf(cs: seq<Count>) returns (n: nat)
    ensures n == |Expand(cs)|
  {
    n := 0;
    for i := 0 to |cs|
      invariant n == |Expand(cs[..i])|
    {
      assert cs[..i + 1][..i] == cs[..i];
      n := n + cs[i].n;
    }
    assert cs[..|cs|] == cs;
  }

  // ranks_of: the elements at 0-based ranks idx and idx + 1, without
  // expanding the counts.
  method RanksOf(cs: seq<Count>, idx: nat) returns (lo: Option<real>, hi: Option<real>)
    ensures idx < |Expand(cs)| ==> lo == Some(Expand(cs)[idx])
    ensures idx < |Expand(cs)| ==> hi == Some(Expand(cs)[if idx + 1 < |Expand(cs)| then idx + 1 else idx])
    ensures idx >= |Expand(cs)| ==> lo == None
  {
    lo, hi := None, None;
    var cum := 0;
    for i := 0 to |cs|
      invariant cum == |Expand(cs[..i])|
      invariant lo == if idx < cum then Some(Expand(cs[..i])[idx]) else None
      invariant idx + 1 >= cum && hi == None
    {
      ExpandPrefix(cs, i + 1);
      ExpandPrefix(cs, i);
      assert cs[..i + 1][..i] == cs[..i];
      var end := cum + cs[i].n;
      if lo.None? && idx < end {
        lo := Some(cs[i].v);
      }
      if idx + 1 < end {
        hi := Some(cs[i].v);
        return;
      }
      cum := end;
    }
    assert cs[..|cs|] == cs;
    if lo.Some? {
      hi := lo;
    }
  }

  function Ceiling(x: real): int {
    -((-x).Floor)
  }

  // ---- QUANTILE_DISC ----

  ghost function Below(s: seq<real>, v: real): set<nat> {
    set i: nat | i < |s| && s[i] < v
  }

  ghost function UpTo(s: seq<real>, v: real): set<nat> {
    set i: nat | i < |s| && s[i] <= v
  }

  // The least element that at least a share q of the elements does not exceed.
  ghost predicate DiscreteQuantile(s: seq<real>, q: real, v: real) {
    v in s && AtShare(s, q * |s| as real, v)
  }

  ghost predicate AtShare(s: seq<real>, share: real, v: real) {
    |UpTo(s, v)| as real >= share && (|Below(s, v)| == 0 || (|Below(s, v)| as real) < share)
  }

  function Share(q: real, n: nat): (r: real)
    ensures 0.0 <= q <= 1.0 ==> 0.0 <= r <= n as real
  {
    Product(q, n as real);
    q * n as real
  }

  lemma Product(q: real, x: real)
    requires x >= 0.0
    ensures 0.0 <= q <= 1.0 ==> 0.0 <= q * x <= x
  {
    if 0.0 <= q <= 1.0 {
      assert (1.0 - q) * x >= 0.0;
      assert q * x >= 0.0;
      assert (1.0 - q) * x == x - q * x;
    }
  }

  function Indices(n: nat): (r: set<nat>)
    ensures forall i: nat {:trigger i in r} :: i in r <==> i < n
    ensures |r| == n
  {
    if n == 0 then {} else Indices(n - 1) + {n - 1}
  }

  lemma SubsetSize(a: set<nat>, b: set<nat>)
    requires a <= b
    ensures |a| <= |b|
  {
    assert b == a + (b - a);
  }

  // In an ascending sequence, the element at idx has at most idx elements
  // below it and at least idx + 1 up to it.
  lemma RankCounts(s: seq<real>, idx: nat)
    requires Ascending(s) && idx < |s|
    ensures |Below(s, s[idx])| <= idx && |UpTo(s, s[idx])| >= idx + 1
  {
    SubsetSize(Below(s, s[idx]), Indices(idx));
    SubsetSize(Indices(idx + 1), UpTo(s, s[idx]));
  }

  // Element ceil(share) - 1; it never leaves the sequence.
  function DiscIndex(share: real, n: nat): (idx: nat)
    requires n > 0 && 0.0 <= share <= n as real
    ensures idx < n && idx as real + 1.0 >= share && (idx == 0 || (idx as real) < share)
  {
    var c := Ceiling(share);
    if c > 0 then c - 1 else 0
  }

  lemma DiscIndexAnswers(s: seq<real>, share: real, idx: nat)
    requires Ascending(s) && idx < |s| && idx as real + 1.0 >= share && (idx == 0 || (idx as real) < share)
    ensures AtShare(s, share, s[idx])
  {
    RankCounts(s, idx);
  }

  method QuantileDisc(cs: seq<Count>, q: real) returns (r: Option<real>)
    requires CountMap(cs) && 0.0 <= q <= 1.0
    ensures cs == [] <==> r == None
    ensures r.Some? ==> DiscreteQuantile(Expand(cs), q, r.value)
  {
    if cs == [] {
      return None;
    }
    ExpandBound(cs);
    var n := TotalOf(cs);
    var share := Share(q, n);
    var idx := DiscIndex(share, n);
    var lo, hi := RanksOf(cs, idx);
    r := lo;
    DiscIndexAnswers(Expand(cs), share, idx);
  }

  // ---- interpolated quantiles ----

  // The value at a fractional position between its two neighbours.
  function AtPosition(s: seq<real>, pos: real): real
    requires s != [] && 0.0 <= pos <= (|s| - 1) as real
  {
    var lo := pos.Floor;
    var frac := pos - lo as real;
    if frac == 0.0 || lo + 1 >= |s| then s[lo] else s[lo] + frac * (s[lo + 1] - s[lo])
  }

  function Interpolate(s: seq<real>, q: real): real
    requires s != [] && 0.0 <= q <= 1.0
  {
    AtPosition(s, Share(q, |s| - 1))
  }

  // A whole position has its element. Any other lies between two, and its
  // value divides their gap as it divides the step from one to the other.
  ghost predicate LiesAt(s: seq<real>, pos: real, v: real) {
    && s != [] && 0.0 <= pos <= (|s| - 1) as real
    && var lo := pos.Floor;
       if pos == lo as real then v == s[lo]
       else s[lo] <= v <= s[lo + 1] && (v - s[lo]) * ((lo + 1) as real - pos) == (s[lo + 1] - v) * (pos - lo as real)
  }

  // The value a share q of the way from the first element to the last.
  ghost predicate ContinuousQuantile(s: seq<real>, q: real, v: real) {
    LiesAt(s, q * (|s| - 1) as real, v)
  }

  lemma Divides(gap: real, f: real, d: real)
    requires 0.0 <= gap && 0.0 <= f <= 1.0 && d == f * gap
    ensures 0.0 <= d <= gap && d * (1.0 - f) == (gap - d) * f
  {
    Product(f, gap);
    calc {
      d * (1.0 - f);
      d - d * f;
      f * gap - d * f;
      (gap - d) * f;
    }
  }

  lemma PositionLies(s: seq<real>, pos: real)
    requires Ascending(s) && s != [] && 0.0 <= pos <= (|s| - 1) as real
    ensures LiesAt(s, pos, AtPosition(s, pos))
  {
    var lo := pos.Floor;
    if pos != lo as real {
      assert lo + 1 < |s| && s[lo] <= s[lo + 1];
      assert 1.0 - (pos - lo as real) == (lo + 1) as real - pos;
      var gap := s[lo + 1] - s[lo];
      Divides(gap, pos - lo as real, (pos - lo as real) * gap);
    }
  }

  lemma InterpolateIs(s: seq<real>, q: real)
    requires Ascending(s) && s != [] && 0.0 <= q <= 1.0
    ensures ContinuousQuantile(s, q, Interpolate(s, q))
  {
    PositionLies(s, Share(q, |s| - 1));
  }

  // MEDIAN and QUANTILE_CONT on the counts are the quantile of the expanded
  // sequence.
  method QuantileCont(cs: seq<Count>, q: real) returns (r: Option<real>)
    requires CountMap(cs) && 0.0 <= q <= 1.0
    ensures cs == [] <==> r == None
    ensures r.Some? ==> ContinuousQuantile(Expand(cs), q, r.value)
  {
    if cs == [] {
      return None;
    }
    ExpandBound(cs);
    var n := TotalOf(cs);
    var v := RankedPosition(cs, Share(q, n - 1));
    InterpolateIs(Expand(cs), q);
    r := Some(v);
  }

  method RankedPosition(cs: seq<Count>, pos: real) returns (v: real)
    requires Expand(cs) != [] && 0.0 <= pos <= (|Expand(cs)| - 1) as real
    ensures v == AtPosition(Expand(cs), pos)
  {
    var n := TotalOf(cs);
    var loIdx := pos.Floor;
    var frac := pos - loIdx as real;
    var lo, hi := RanksOf(cs, loIdx);
    if frac == 0.0 || loIdx + 1 >= n {
      return lo.value;
    }
    v := lo.value + frac * (hi.value - lo.value);
  }

  // ---- MAD ----

  function Abs(x: real): real {
    if x < 0.0 then -x else x
  }

  function Deviations(s: seq<real>, m: real): (r: seq<real>)
    ensures |r| == |s| && forall i :: 0 <= i < |s| ==> r[i] == Abs(s[i] - m)
  {
    seq(|s|, i requires 0 <= i < |s| => Abs(s[i] - m))
  }

  // Index of the first element above m.
  method FirstAbove(s: seq<real>, m: real) returns (below: nat)
    requires Ascending(s)
    ensures below <= |s|
    ensures forall i :: 0 <= i < below ==> s[i] <= m
    ensures forall i :: below <= i < |s| ==> s[i] > m
  {
    below := 0;
    while below < |s| && s[below] <= m
      invariant below <= |s| && forall i :: 0 <= i < below ==> s[i] <= m
    {
      below := below + 1;
    }
  }

  // The merge so far covers s[l..r], and nothing outside is closer to m.
  ghost predicate Merging(s: seq<real>, m: real, l: nat, r: nat, devs: seq<real>) {
    && l <= r <= |s| && Ascending(devs) && multiset(devs) == multiset(Deviations(s[l..r], m))
    && (forall i :: 0 <= i < l ==> s[i] <= m) && (forall i :: r <= i < |s| ==> s[i] > m)
    && (forall d :: d in devs ==> (l > 0 ==> d <= m - s[l - 1]) && (r < |s| ==> d <= s[r] - m))
  }

  lemma AscendingPush(devs: seq<real>, d: real)
    requires Ascending(devs) && forall x :: x in devs ==> x <= d
    ensures Ascending(devs + [d])
  {
    forall i | 0 <= i < |devs| ensures devs[i] <= d {
      assert devs[i] in devs;
    }
  }

  lemma DeviationsLeft(s: seq<real>, m: real, l: nat, r: nat)
    requires 0 < l <= r <= |s| && s[l - 1] <= m
    ensures multiset(Deviations(s[l - 1..r], m)) == multiset(Deviations(s[l..r], m)) + multiset{m - s[l - 1]}
  {
    assert s[l - 1..r] == [s[l - 1]] + s[l..r];
    assert Deviations(s[l - 1..r], m) == [m - s[l - 1]] + Deviations(s[l..r], m);
  }

  lemma DeviationsRight(s: seq<real>, m: real, l: nat, r: nat)
    requires l <= r < |s| && s[r] > m
    ensures multiset(Deviations(s[l..r + 1], m)) == multiset(Deviations(s[l..r], m)) + multiset{s[r] - m}
  {
    assert s[l..r + 1] == s[l..r] + [s[r]];
    assert Deviations(s[l..r + 1], m) == Deviations(s[l..r], m) + [s[r] - m];
  }

  lemma TakeLeft(s: seq<real>, m: real, l: nat, r: nat, devs: seq<real>, next: seq<real>)
    requires Ascending(s) && Merging(s, m, l, r, devs) && l > 0 && (r < |s| ==> m - s[l - 1] <= s[r] - m)
    requires next == devs + [m - s[l - 1]]
    ensures Merging(s, m, l - 1, r, next)
  {
    var d := m - s[l - 1];
    AscendingPush(devs, d);
    DeviationsLeft(s, m, l, r);
    Pushed(s, m, l - 1, r, devs, d);
  }

  lemma TakeRight(s: seq<real>, m: real, l: nat, r: nat, devs: seq<real>, next: seq<real>)
    requires Ascending(s) && Merging(s, m, l, r, devs) && r < |s| && (l > 0 ==> s[r] - m < m - s[l - 1])
    requires next == devs + [s[r] - m]
    ensures Merging(s, m, l, r + 1, next)
  {
    var d := s[r] - m;
    AscendingPush(devs, d);
    DeviationsRight(s, m, l, r);
    Pushed(s, m, l, r + 1, devs, d);
  }

  // The new deviation bounds the rest because the input is ascending.
  lemma Pushed(s: seq<real>, m: real, l: nat, r: nat, devs: seq<real>, d: real)
    requires Ascending(s) && l <= r <= |s| && forall x :: x in devs ==> x <= d
    requires l > 0 ==> d <= m - s[l - 1]
    requires r < |s| ==> d <= s[r] - m
    ensures forall x :: x in devs + [d] ==> (l > 0 ==> x <= m - s[l - 1]) && (r < |s| ==> x <= s[r] - m)
  {
  }

  // Two pointers walk away from the median; an exhausted side never wins.
  method MergeDeviations(s: seq<real>, m: real) returns (devs: seq<real>)
    requires Ascending(s)
    ensures Ascending(devs) && multiset(devs) == multiset(Deviations(s, m))
  {
    var below := FirstAbove(s, m);
    var l: nat, r: nat := below, below;
    devs := [];
    assert Deviations(s[l..r], m) == [];
    while |devs| < |s|
      invariant Merging(s, m, l, r, devs) && |devs| == r - l
      decreases |s| - |devs|
    {
      l, r, devs := MergeStep(s, m, l, r, devs);
    }
    assert s[l..r] == s;
  }

  method MergeStep(s: seq<real>, m: real, l0: nat, r0: nat, devs0: seq<real>) returns (l: nat, r: nat, devs: seq<real>)
    requires Ascending(s) && Merging(s, m, l0, r0, devs0) && r0 - l0 < |s|
    ensures Merging(s, m, l, r, devs) && r - l == r0 - l0 + 1 && |devs| == |devs0| + 1
  {
    if r0 == |s| || (l0 > 0 && m - s[l0 - 1] <= s[r0] - m) {
      l, r, devs := l0 - 1, r0, devs0 + [m - s[l0 - 1]];
      TakeLeft(s, m, l0, r0, devs0, devs);
    } else {
      l, r, devs := l0, r0 + 1, devs0 + [s[r0] - m];
      TakeRight(s, m, l0, r0, devs0, devs);
    }
  }

  method ExpandCounts(cs: seq<Count>) returns (s: seq<real>)
    ensures s == Expand(cs)
  {
    s := [];
    for i := 0 to |cs|
      invariant s == Expand(cs[..i])
    {
      assert cs[..i + 1][..i] == cs[..i];
      s := s + Copies(cs[i].v, cs[i].n);
    }
    assert cs[..|cs|] == cs;
  }

  // The median of the sorted absolute deviations from the median.
  ghost predicate IsMad(s: seq<real>, v: real)
    requires s != []
  {
    exists m, devs :: ContinuousQuantile(s, 0.5, m) && IsSortedDeviations(s, m, devs) && ContinuousQuantile(devs, 0.5, v)
  }

  ghost predicate IsSortedDeviations(s: seq<real>, m: real, devs: seq<real>) {
    Ascending(devs) && multiset(devs) == multiset(Deviations(s, m))
  }

  // Median absolute deviation: the interpolated median of the sorted absolute
  // deviations from the interpolated median.
  method Mad(cs: seq<Count>) returns (r: Option<real>)
    requires CountMap(cs)
    ensures cs == [] <==> r == None
    ensures cs != [] ==> Expand(cs) != [] && r.Some? && IsMad(Expand(cs), r.value)
  {
    if cs == [] {
      return None;
    }
    ExpandBound(cs);
    var vals := ExpandCounts(cs);
    var med := Interpolate(vals, 0.5);
    var devs := MergeDeviations(vals, med);
    assert |devs| == |multiset(devs)| == |multiset(Deviations(vals, med))| == |vals|;
    InterpolateIs(vals, 0.5);
    InterpolateIs(devs, 0.5);
    r := Some(Interpolate(devs, 0.5));
    assert IsSortedDeviations(vals, med, devs);
  }

  // ---- MODE ----

  // b has the highest count so far; values before it have smaller counts.
  ghost predicate Best(cs: seq<Count>, b: nat, upto: nat)
    requires b < |cs| && upto <= |cs|
  {
    forall i :: 0 <= i < upto ==> if i < b then cs[i].n < cs[b].n else cs[i].n <= cs[b].n
  }

  // Highest count, the smallest value among ties.
  method Mode(cs: seq<Count>) returns (r: Option<real>)
    requires CountMap(cs)
    ensures cs == [] <==> r == None
    ensures r.Some? ==> exists b :: 0 <= b < |cs| && cs[b].v == r.value && Best(cs, b, |cs|)
  {
    if cs == [] {
      return None;
    }
    var best := 0;
    for i := 0 to |cs|
      invariant 0 <= best < |cs| && best <= i
      invariant Best(cs, best, i)
    {
      if cs[i].n > cs[best].n {
        best := i;
      }
    }
    r := Some(cs[best].v);
  }
}

// Entries of an order-sensitive aggregate, kept sorted.
module OrderedLists {
  import opened Rows
  import opened Sorting

  datatype Direction = Direction(ascending: bool, nullsFirst: bool)

  datatype Item = Item(keys: seq<Value>, v: Value)

  predicate ValueLess(a: Value, b: Value, ascending: bool, nullsFirst: bool) {
    if a.Null? || b.Null? then
      if a.Null? && b.Null? then false else if a.Null? then nullsFirst else !nullsFirst
    else if ascending then a.v < b.v else b.v < a.v
  }

  // ordered_less: the ORDER BY keys in turn, then the value (NULLs last).
  predicate OrderedLess(dirs: seq<Direction>, a: Item, b: Item, k: nat)
    requires |a.keys| == |b.keys| == |dirs| && k <= |dirs|
    decreases |dirs| - k
  {
    if k == |dirs| then ValueLess(a.v, b.v, true, false)
    else if ValueLess(a.keys[k], b.keys[k], dirs[k].ascending, dirs[k].nullsFirst) then true
    else if ValueLess(b.keys[k], a.keys[k], dirs[k].ascending, dirs[k].nullsFirst) then false
    else OrderedLess(dirs, a, b, k + 1)
  }

  // Items of one aggregate have one key per direction; others come last.
  function ItemOrder(dirs: seq<Direction>): (Item, Item) -> bool {
    (a: Item, b: Item) =>
      if |a.keys| == |dirs| && |b.keys| == |dirs| then OrderedLess(dirs, a, b, 0)
      else |a.keys| == |dirs| && |b.keys| != |dirs|
  }

  lemma ValueLessOrder(a: Value, b: Value, c: Value, asc: bool, nf: bool)
    ensures ValueLess(a, b, asc, nf) ==> !ValueLess(b, a, asc, nf)
    ensures a == b || ValueLess(a, b, asc, nf) || ValueLess(b, a, asc, nf)
    ensures ValueLess(a, b, asc, nf) && ValueLess(b, c, asc, nf) ==> ValueLess(a, c, asc, nf)
  {
  }

  lemma {:induction false} OrderedLessTotal(dirs: seq<Direction>, a: Item, b: Item, k: nat)
    requires |a.keys| == |b.keys| == |dirs| && k <= |dirs|
    ensures OrderedLess(dirs, a, b, k) ==> !OrderedLess(dirs, b, a, k)
    ensures OrderedLess(dirs, a, b, k) || OrderedLess(dirs, b, a, k) || (a.v == b.v && a.keys[k..] == b.keys[k..])
    decreases |dirs| - k
  {
    if k < |dirs| {
      ValueLessOrder(a.keys[k], b.keys[k], b.keys[k], dirs[k].ascending, dirs[k].nullsFirst);
      OrderedLessTotal(dirs, a, b, k + 1);
      assert a.keys[k..] == [a.keys[k]] + a.keys[k + 1..] && b.keys[k..] == [b.keys[k]] + b.keys[k + 1..];
    }
  }

  lemma {:induction false} OrderedLessTransitive(dirs: seq<Direction>, a: Item, b: Item, c: Item, k: nat)
    requires |a.keys| == |b.keys| == |c.keys| == |dirs| && k <= |dirs|
    requires OrderedLess(dirs, a, b, k) && OrderedLess(dirs, b, c, k)
    ensures OrderedLess(dirs, a, c, k)
    decreases |dirs| - k
  {
    if k < |dirs| {
      var asc, nf := dirs[k].ascending, dirs[k].nullsFirst;
      ValueLessOrder(a.keys[k], b.keys[k], c.keys[k], asc, nf);
      ValueLessOrder(a.keys[k], c.keys[k], c.keys[k], asc, nf);
      ValueLessOrder(b.keys[k], c.keys[k], c.keys[k], asc, nf);
      if a.keys[k] == b.keys[k] == c.keys[k] {
        OrderedLessTransitive(dirs, a, b, c, k + 1);
      }
    }
  }

  // The comparator tells any two entries of one aggregate apart.
  ghost predicate Shaped(dirs: seq<Direction>, s: seq<Item>) {
    forall x :: x in s ==> |x.keys| == |dirs|
  }

  lemma ItemOrderIsWeak(dirs: seq<Direction>)
    ensures WeakOrder(ItemOrder(dirs))
  {
    var lt := ItemOrder(dirs);
    forall x: Item, y: Item, z: Item
      ensures lt(x, y) ==> !lt(y, x)
      ensures lt(x, y) && !lt(z, y) ==> lt(x, z)
    {
      if |x.keys| == |y.keys| == |dirs| {
        OrderedLessTotal(dirs, x, y, 0);
        if |z.keys| == |dirs| {
          OrderedLessTotal(dirs, z, y, 0);
          assert x.keys[0..] == x.keys && y.keys[0..] == y.keys && z.keys[0..] == z.keys;
          if lt(x, y) && lt(y, z) {
            OrderedLessTransitive(dirs, x, y, z, 0);
          }
        }
      }
    }
  }

  // Equivalent entries are equal, so the first one found in the equal range
  // is an exact match.
  lemma EquivalentIsEqual(dirs: seq<Direction>, a: Item, b: Item)
    requires |a.keys| == |dirs| && |b.keys| == |dirs| && !ItemOrder(dirs)(a, b) && !ItemOrder(dirs)(b, a)
    ensures a == b
  {
    OrderedLessTotal(dirs, a, b, 0);
    assert a.keys[0..] == a.keys && b.keys[0..] == b.keys;
  }

  // The value that a key's direction and NULL placement put first.
  predicate KeyFirst(dir: Direction, a: Value, b: Value) {
    match (a, b)
    case (Null, Null) => false
    case (Null, Val(_)) => dir.nullsFirst
    case (Val(_), Null) => !dir.nullsFirst
    case (Val(x), Val(y)) => (dir.ascending && x < y) || (!dir.ascending && y < x)
  }

  // The first key in which two entries differ decides; the value does when
  // the keys are the same.
  lemma {:induction false} FirstKeyDecides(dirs: seq<Direction>, a: Item, b: Item, k: nat, c: nat)
    requires |a.keys| == |b.keys| == |dirs| && k <= c <= |dirs| && a.keys[k..c] == b.keys[k..c]
    requires c < |dirs| ==> a.keys[c] != b.keys[c]
    ensures OrderedLess(dirs, a, b, k) <==>
              if c < |dirs| then KeyFirst(dirs[c], a.keys[c], b.keys[c]) else KeyFirst(Direction(true, false), a.v, b.v)
    decreases c - k
  {
    if k < c {
      assert a.keys[k] == a.keys[k..c][0] && b.keys[k] == b.keys[k..c][0];
      assert a.keys[k + 1..c] == a.keys[k..c][1..] && b.keys[k + 1..c] == b.keys[k..c][1..];
      FirstKeyDecides(dirs, a, b, k + 1, c);
    }
  }

  // So the entries of a list stand as their keys ask.
  lemma ListedAsAsked(dirs: seq<Direction>, s: seq<Item>, i: nat, j: nat, c: nat)
    requires Sorted(s, ItemOrder(dirs)) && Shaped(dirs, s) && i < j < |s|
    requires c < |dirs| && s[i].keys[..c] == s[j].keys[..c] && s[i].keys[c] != s[j].keys[c]
    ensures KeyFirst(dirs[c], s[i].keys[c], s[j].keys[c])
  {
    var a, b := s[i], s[j];
    assert a in s && b in s && !ItemOrder(dirs)(b, a);
    assert a.keys[0..c] == a.keys[..c] && b.keys[0..c] == b.keys[..c];
    FirstKeyDecides(dirs, b, a, 0, c);
    OrderedLessTotal(dirs, a, b, 0);
    FirstKeyDecides(dirs, a, b, 0, c);
  }

  // equal_range's first position: the first entry not before x.
  method LowerBound(s: seq<Item>, dirs: seq<Direction>, x: Item) returns (i: nat)
    requires Sorted(s, ItemOrder(dirs)) && Shaped(dirs, s) && |x.keys| == |dirs|
    ensures i <= |s| && (forall j :: 0 <= j < i ==> ItemOrder(dirs)(s[j], x))
    ensures i < |s| ==> !ItemOrder(dirs)(s[i], x)
  {
    var lt := ItemOrder(dirs);
    ItemOrderIsWeak(dirs);
    var lo, hi := 0, |s|;
    while lo < hi
      invariant 0 <= lo <= hi <= |s|
      invariant forall j :: 0 <= j < lo ==> lt(s[j], x)
      invariant forall j :: hi <= j < |s| ==> !lt(s[j], x)
    {
      var mid := (lo + hi) / 2;
      if lt(s[mid], x) {
        forall j | 0 <= j < mid ensures lt(s[j], x) {
          assert !lt(s[mid], s[j]);
          BelowBelow(dirs, s[j], s[mid], x);
        }
        lo := mid + 1;
      } else {
        forall j | mid < j < |s| ensures !lt(s[j], x) {
          assert !lt(s[j], s[mid]);
        }
        hi := mid;
      }
    }
    i := lo;
  }

  lemma BelowBelow(dirs: seq<Direction>, a: Item, b: Item, x: Item)
    requires |a.keys| == |dirs| && |b.keys| == |dirs| && |x.keys| == |dirs|
    requires !ItemOrder(dirs)(b, a) && ItemOrder(dirs)(b, x)
    ensures ItemOrder(dirs)(a, x)
  {
    if ItemOrder(dirs)(a, b) {
      OrderedLessTransitive(dirs, a, b, x, 0);
    } else {
      EquivalentIsEqual(dirs, a, b);
    }
  }

  // A weight applied to the list: |weight| copies in or out.
  method ApplyOrdered(s0: seq<Item>, dirs: seq<Direction>, x: Item, weight: int) returns (s: seq<Item>)
    requires Sorted(s0, ItemOrder(dirs)) && Shaped(dirs, s0) && |x.keys| == |dirs|
    ensures Sorted(s, ItemOrder(dirs)) && Shaped(dirs, s)
    ensures multiset(s) == multiset(s0)[x := AtLeastZero(multiset(s0)[x] + weight)]
  {
    s := s0;
    var i := weight;
    while i != 0
      invariant Sorted(s, ItemOrder(dirs)) && Shaped(dirs, s)
      invariant if weight >= 0 then 0 <= i <= weight else weight <= i <= 0
      invariant multiset(s) == multiset(s0)[x := AtLeastZero(multiset(s0)[x] + weight - i)]
      decreases if i < 0 then -i else i
    {
      if i > 0 {
        s := InsertItem(s, dirs, x);
        i := i - 1;
      } else {
        s := EraseItem(s, dirs, x);
        i := i + 1;
      }
    }
  }

  function AtLeastZero(n: int): nat {
    if n < 0 then 0 else n
  }

  // upper_bound and insert.
  method InsertItem(s: seq<Item>, dirs: seq<Direction>, x: Item) returns (r: seq<Item>)
    requires Sorted(s, ItemOrder(dirs)) && Shaped(dirs, s) && |x.keys| == |dirs|
    ensures Sorted(r, ItemOrder(dirs)) && Shaped(dirs, r) && multiset(r) == multiset(s) + multiset{x}
  {
    ItemOrderIsWeak(dirs);
    PlaceSorted(s, x, ItemOrder(dirs));
    r := Place(s, x, ItemOrder(dirs));
    forall y | y in r ensures |y.keys| == |dirs| {
      assert y in multiset(r);
    }
  }

  // equal_range and erase of one exact match; nothing if there is none.
  method EraseItem(s: seq<Item>, dirs: seq<Direction>, x: Item) returns (r: seq<Item>)
    requires Sorted(s, ItemOrder(dirs)) && Shaped(dirs, s) && |x.keys| == |dirs|
    ensures Sorted(r, ItemOrder(dirs)) && Shaped(dirs, r) && multiset(r) == multiset(s) - multiset{x}
  {
    var i := LowerBound(s, dirs, x);
    r := s;
    if i < |s| && s[i] == x {
      r := s[..i] + s[i + 1..];
      assert s == s[..i] + [x] + s[i + 1..];
    } else {
      NotInList(s, dirs, x, i);
    }
  }

  lemma NotInList(s: seq<Item>, dirs: seq<Direction>, x: Item, i: nat)
    requires Sorted(s, ItemOrder(dirs)) && Shaped(dirs, s) && |x.keys| == |dirs| && i <= |s|
    requires forall j :: 0 <= j < i ==> ItemOrder(dirs)(s[j], x)
    requires i < |s| ==> !ItemOrder(dirs)(s[i], x) && s[i] != x
    ensures x !in s
  {
    OrderedLessTotal(dirs, x, x, 0);
    if i < |s| && x in s {
      var j :| 0 <= j < |s| && s[j] == x;
      assert s[i] in s;
      assert j >= i;
      assert j == i || !ItemOrder(dirs)(s[j], s[i]);
      EquivalentIsEqual(dirs, s[i], x);
    }
  }

  // What an ordered aggregate shows depends on the group's entries alone, not
  // on the order in which they came and went.
  lemma RenderIsCanonical(dirs: seq<Direction>, a: seq<Item>, b: seq<Item>)
    requires Sorted(a, ItemOrder(dirs)) && Sorted(b, ItemOrder(dirs)) && Shaped(dirs, a) && multiset(a) == multiset(b)
    ensures a == b
  {
    forall x, y | x in a && y in a && x != y ensures ItemOrder(dirs)(x, y) || ItemOrder(dirs)(y, x) {
      if !ItemOrder(dirs)(x, y) && !ItemOrder(dirs)(y, x) {
        EquivalentIsEqual(dirs, x, y);
      }
    }
    SortedUnique(a, b, ItemOrder(dirs));
  }
}
