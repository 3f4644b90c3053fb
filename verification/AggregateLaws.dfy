// The grouped table written out from the rows themselves, and that it is the
// one the aggregate node keeps (sections 6.5 and 7.7 of ISO/IEC 9075:1992).
module AggregateLaws {
  import opened ZSets
  import opened Rows
  import opened GroupSemantics
  import opened GroupState
  import opened AggregateNode

  // ---- the values a group has for an aggregate ----

  // The FILTER predicate of the aggregate is true of the row.
  ghost predicate Takes(q: Query, a: AggSpec, r: Row) {
    match a.filter
    case None => true
    case Some(f) => f < |q.args(r)| && q.args(r)[f] != Null && q.args(r)[f] != Val(0)
  }

  ghost predicate HasValue(q: Query, a: AggSpec, k: Row, r: Row, v: int) {
    q.key(r) == k && Takes(q, a, r) && a.arg < |q.args(r)| && q.args(r)[a.arg] == Val(v)
  }

  function Argument(q: Query, a: AggSpec, r: Row): Value {
    if a.arg < |q.args(r)| then q.args(r)[a.arg] else Null
  }

  // The values that rows of the group have, each once.
  ghost function ValueSet(q: Query, a: AggSpec, k: Row, z: ZSet<Row>): set<int> {
    set r | r in z && W(z, r) > 0 && q.key(r) == k && Takes(q, a, r) && Argument(q, a, r) != Null :: Argument(q, a, r).v
  }

  ghost function Having(q: Query, a: AggSpec, k: Row, v: int): Row -> bool {
    (r: Row) => HasValue(q, a, k, r, v)
  }

  ghost function Taken(q: Query, a: AggSpec, k: Row): Row -> bool {
    (r: Row) => q.key(r) == k && Takes(q, a, r)
  }

  // How often a value stands in the group.
  ghost function Copies(q: Query, a: AggSpec, k: Row, z: ZSet<Row>): int -> int {
    (v: int) => Mass(z, Having(q, a, k, v))
  }

  function Itself(): int -> int {
    (v: int) => v
  }

  ghost function Times(f: int -> int): int -> int {
    (v: int) => v * f(v)
  }

  ghost function CountOf(q: Query, a: AggSpec, k: Row, z: ZSet<Row>): int {
    var s := ValueSet(q, a, k, z);
    if a.distinct then |s| else Total(s, Copies(q, a, k, z))
  }

  ghost function SumOf(q: Query, a: AggSpec, k: Row, z: ZSet<Row>): int {
    var s := ValueSet(q, a, k, z);
    if a.distinct then Total(s, Itself()) else Total(s, Times(Copies(q, a, k, z)))
  }

  // The value of an aggregate over a group.
  ghost predicate IsValue(q: Query, a: AggSpec, k: Row, z: ZSet<Row>, value: Value) {
    var s := ValueSet(q, a, k, z);
    match a.fn
    case CountStar => value == Val(Mass(z, Taken(q, a, k)))
    case Count => value == Val(CountOf(q, a, k, z))
    case Sum => value == if s == {} then Null else Val(SumOf(q, a, k, z))
    case Avg => value == if s == {} then Null else q.quot(SumOf(q, a, k, z), CountOf(q, a, k, z))
    case Min => if s == {} then value == Null else value.Val? && value.v in s && forall v :: v in s ==> value.v <= v
    case Max => if s == {} then value == Null else value.Val? && value.v in s && forall v :: v in s ==> v <= value.v
  }

  // ---- both ways of counting agree ----

  lemma TakesIff(q: Query, a: AggSpec, k: Row, r: Row)
    ensures FilterPasses(a, q.args(r)) <==> Takes(q, a, r)
    ensures Seen(q, a, k)(r) <==> q.key(r) == k && Takes(q, a, r)
    ensures At(q.args(r), a.arg) == Argument(q, a, r)
    ensures Valued(q, a, k)(r) <==> q.key(r) == k && Takes(q, a, r) && Argument(q, a, r) != Null
  {
  }

  lemma CopiesAre(q: Query, a: AggSpec, k: Row, z: ZSet<Row>, v: int)
    ensures Copies(q, a, k, z)(v) == Multiplicity(q, a, k, z, v)
  {
    forall r ensures Having(q, a, k, v)(r) <==> WithValue(q, a, k, v)(r) {
      TakesIff(q, a, k, r);
    }
    MassSame(z, Having(q, a, k, v), WithValue(q, a, k, v));
  }

  lemma ValueSetIsDistinct(q: Query, a: AggSpec, k: Row, z: ZSet<Row>)
    requires NonNeg(z)
    ensures ValueSet(q, a, k, z) == Distinct(q, a, k, z)
    ensures forall v :: v in ValueSet(q, a, k, z) <==> Copies(q, a, k, z)(v) > 0
  {
    forall v ensures v in ValueSet(q, a, k, z) <==> Copies(q, a, k, z)(v) > 0
             ensures v in Distinct(q, a, k, z) <==> Copies(q, a, k, z)(v) > 0
    {
      CopiesAre(q, a, k, z, v);
      DistinctIff(q, a, k, z, v);
      HeldIff(q, a, k, z, v);
    }
  }

  lemma HeldIff(q: Query, a: AggSpec, k: Row, z: ZSet<Row>, v: int)
    requires NonNeg(z)
    ensures v in ValueSet(q, a, k, z) <==> Multiplicity(q, a, k, z, v) > 0
  {
    forall r ensures HasValue(q, a, k, r, v) <==> WithValue(q, a, k, v)(r) {
      TakesIff(q, a, k, r);
    }
    assert forall x :: x in z ==> W(z, x) == z[x];
    MassSign(z, WithValue(q, a, k, v));
    if v in ValueSet(q, a, k, z) {
      var r :| r in z && W(z, r) > 0 && HasValue(q, a, k, r, v);
      assert WithValue(q, a, k, v)(r);
    }
    if Multiplicity(q, a, k, z, v) > 0 {
      var r :| r in z && WithValue(q, a, k, v)(r) && z[r] > 0;
      assert HasValue(q, a, k, r, v);
    }
  }

  // A sum over rows is a sum over values times their copies.
  ghost function PerRow(q: Query, a: AggSpec, k: Row, g: int -> int): Row -> int {
    (r: Row) => if Valued(q, a, k)(r) then g(At(q.args(r), a.arg).v) else 0
  }

  ghost function PerValue(q: Query, a: AggSpec, k: Row, z: ZSet<Row>, g: int -> int): int -> int {
    (v: int) => g(v) * Multiplicity(q, a, k, z, v)
  }

  lemma {:induction false} RowsByValue(q: Query, a: AggSpec, k: Row, z: ZSet<Row>, g: int -> int, all: set<int>)
    requires Normal(z) && forall r :: r in z && Valued(q, a, k)(r) ==> At(q.args(r), a.arg).v in all
    ensures WeightedSum(z, PerRow(q, a, k, g)) == Total(all, PerValue(q, a, k, z, g))
    decreases |z|
  {
    if z == map[] {
      NoValues(q, a, k, g, all);
    } else {
      var x, rest := TakeOne(z);
      RowsByValue(q, a, k, rest, g, all);
      WeightedSumInsert(rest, x, z[x], PerRow(q, a, k, g));
      OneMoreRow(q, a, k, rest, x, z[x], g, all);
    }
  }

  lemma TakeOne(z: ZSet<Row>) returns (x: Row, rest: ZSet<Row>)
    requires Normal(z) && z != map[]
    ensures x in z && |rest| < |z| && Normal(rest) && rest.Keys <= z.Keys && z == Insert(rest, x, z[x])
  {
    x :| x in z;
    rest := z - {x};
    assert z.Keys == rest.Keys + {x};
    assert z == rest[x := z[x]];
  }

  lemma NoValues(q: Query, a: AggSpec, k: Row, g: int -> int, all: set<int>)
    ensures WeightedSum(map[], PerRow(q, a, k, g)) == 0 == Total(all, PerValue(q, a, k, map[], g))
  {
    forall v | v in all ensures PerValue(q, a, k, map[], g)(v) == 0 {
      assert Multiplicity(q, a, k, map[], v) == 0;
    }
    TotalWiden({}, all, PerValue(q, a, k, map[], g));
  }

  lemma Share(q: Query, a: AggSpec, k: Row, z: ZSet<Row>, x: Row, w: int, g: int -> int, v: int)
    ensures PerValue(q, a, k, Insert(z, x, w), g)(v)
         == PerValue(q, a, k, z, g)(v) + if WithValue(q, a, k, v)(x) then w * g(v) else 0
  {
    var m, after := Multiplicity(q, a, k, z, v), Multiplicity(q, a, k, Insert(z, x, w), v);
    MassInsert(z, x, w, WithValue(q, a, k, v));
    ShareProduct(g(v), m, after, if WithValue(q, a, k, v)(x) then w else 0);
  }

  lemma ShareProduct(g: int, m: int, after: int, w: int)
    requires after == m + w
    ensures g * after == g * m + w * g
  {
    Distribute(m, w, g);
    Swapped(g, m);
    Swapped(g, after);
  }

  lemma Swapped(x: int, y: int)
    ensures x * y == y * x
  {
  }

  ghost function ShareOf(q: Query, a: AggSpec, k: Row, x: Row, w: int, g: int -> int): int -> int {
    (v: int) => if WithValue(q, a, k, v)(x) then w * g(v) else 0
  }

  lemma OneMoreRow(q: Query, a: AggSpec, k: Row, z: ZSet<Row>, x: Row, w: int, g: int -> int, all: set<int>)
    requires Valued(q, a, k)(x) ==> At(q.args(x), a.arg).v in all
    ensures Total(all, PerValue(q, a, k, Insert(z, x, w), g))
         == Total(all, PerValue(q, a, k, z, g)) + w * PerRow(q, a, k, g)(x)
  {
    var before, after, share := PerValue(q, a, k, z, g), PerValue(q, a, k, Insert(z, x, w), g), ShareOf(q, a, k, x, w, g);
    forall v | v in all ensures after(v) == before(v) + share(v) {
      Share(q, a, k, z, x, w, g, v);
    }
    TotalLinear(all, before, share, after);
    SharesSum(q, a, k, x, w, g, all);
  }

  lemma SharesSum(q: Query, a: AggSpec, k: Row, x: Row, w: int, g: int -> int, all: set<int>)
    requires Valued(q, a, k)(x) ==> At(q.args(x), a.arg).v in all
    ensures Total(all, ShareOf(q, a, k, x, w, g)) == w * PerRow(q, a, k, g)(x)
  {
    var share := ShareOf(q, a, k, x, w, g);
    if Valued(q, a, k)(x) {
      var u := At(q.args(x), a.arg).v;
      TotalWiden({u}, all, share);
      TotalAdd({}, u, share);
      assert {u} == {} + {u};
    } else {
      TotalWiden({}, all, share);
    }
  }

  lemma TotalsAre(q: Query, a: AggSpec, k: Row, z: ZSet<Row>, g: int -> int)
    requires NonNeg(z) && Normal(z)
    ensures WeightedSum(z, PerRow(q, a, k, g)) == Total(ValueSet(q, a, k, z), PerValue(q, a, k, z, g))
  {
    var s := ValueSet(q, a, k, z);
    var all := s + set r | r in z && Valued(q, a, k)(r) :: At(q.args(r), a.arg).v;
    RowsByValue(q, a, k, z, g, all);
    forall v | v in all - s ensures PerValue(q, a, k, z, g)(v) == 0 {
      HeldIff(q, a, k, z, v);
      DistinctIff(q, a, k, z, v);
      assert Multiplicity(q, a, k, z, v) == 0;
    }
    TotalWiden(s, all, PerValue(q, a, k, z, g));
  }

  function One(): int -> int {
    (v: int) => 1
  }

  function Once(q: Query, a: AggSpec, k: Row): Row -> int {
    (r: Row) => if Valued(q, a, k)(r) then 1 else 0
  }

  lemma {:induction false} MassIsSum(q: Query, a: AggSpec, k: Row, z: ZSet<Row>)
    requires Normal(z)
    ensures Mass(z, Valued(q, a, k)) == WeightedSum(z, Once(q, a, k))
    decreases |z|
  {
    if z != map[] {
      var x, rest := TakeOne(z);
      MassIsSum(q, a, k, rest);
      MassInsert(rest, x, z[x], Valued(q, a, k));
      WeightedSumInsert(rest, x, z[x], Once(q, a, k));
    }
  }

  lemma PlainCountIs(q: Query, a: AggSpec, k: Row, z: ZSet<Row>)
    requires NonNeg(z) && Normal(z)
    ensures Mass(z, Valued(q, a, k)) == Total(ValueSet(q, a, k, z), Copies(q, a, k, z))
  {
    MassIsSum(q, a, k, z);
    WeightedSame(z, Once(q, a, k), PerRow(q, a, k, One()));
    TotalsAre(q, a, k, z, One());
    forall v ensures PerValue(q, a, k, z, One())(v) == Copies(q, a, k, z)(v) {
      CopiesAre(q, a, k, z, v);
    }
    TotalCongruent(ValueSet(q, a, k, z), PerValue(q, a, k, z, One()), Copies(q, a, k, z));
  }

  lemma PlainSumIs(q: Query, a: AggSpec, k: Row, z: ZSet<Row>)
    requires NonNeg(z) && Normal(z)
    ensures WeightedSum(z, Contribution(q, a, k)) == Total(ValueSet(q, a, k, z), Times(Copies(q, a, k, z)))
  {
    WeightedSame(z, Contribution(q, a, k), PerRow(q, a, k, Itself()));
    TotalsAre(q, a, k, z, Itself());
    forall v ensures PerValue(q, a, k, z, Itself())(v) == Times(Copies(q, a, k, z))(v) {
      CopiesAre(q, a, k, z, v);
    }
    TotalCongruent(ValueSet(q, a, k, z), PerValue(q, a, k, z, Itself()), Times(Copies(q, a, k, z)));
  }

  // Without values there is nothing to count, with one there is.
  lemma CountSign(q: Query, a: AggSpec, k: Row, z: ZSet<Row>)
    requires NonNeg(z)
    ensures CountOf(q, a, k, z) == 0 <==> ValueSet(q, a, k, z) == {}
  {
    ValueSetIsDistinct(q, a, k, z);
    TotalSign(ValueSet(q, a, k, z), Copies(q, a, k, z));
  }

  // ---- DISTINCT ----

  // COUNT, SUM and AVG over the distinct values alone.
  lemma DistinctValue(q: Query, a: AggSpec, k: Row, z: ZSet<Row>, value: Value)
    requires NonNeg(z) && a.distinct && (a.fn.Count? || a.fn.Sum? || a.fn.Avg?)
    ensures var s := ValueSet(q, a, k, z);
            SqlValue(q, a, k, z, value) <==>
              value == match a.fn
                       case Count => Val(|s|)
                       case Sum => (if s == {} then Null else Val(Total(s, Itself())))
                       case _ => if s == {} then Null else q.quot(Total(s, Itself()), |s|)
  {
    ValueSetIsDistinct(q, a, k, z);
    TotalCongruent(ValueSet(q, a, k, z), Identity(), Itself());
  }

  // The value shown is the one written out, for every aggregate.
  lemma SqlIsValue(q: Query, a: AggSpec, k: Row, z: ZSet<Row>, value: Value)
    requires NonNeg(z) && Normal(z)
    ensures SqlValue(q, a, k, z, value) <==> IsValue(q, a, k, z, value)
  {
    if a.fn.CountStar? {
      StarIs(q, a, k, z);
    } else if a.fn.Min? || a.fn.Max? {
      ValueSetIsDistinct(q, a, k, z);
    } else if a.distinct {
      DistinctValue(q, a, k, z, value);
    } else {
      PlainValue(q, a, k, z, value);
    }
  }

  lemma PlainValue(q: Query, a: AggSpec, k: Row, z: ZSet<Row>, value: Value)
    requires NonNeg(z) && Normal(z) && !a.distinct && (a.fn.Count? || a.fn.Sum? || a.fn.Avg?)
    ensures SqlValue(q, a, k, z, value) <==> IsValue(q, a, k, z, value)
  {
    PlainCountIs(q, a, k, z);
    PlainSumIs(q, a, k, z);
    CountSign(q, a, k, z);
    assert SqlCount(q, a, k, z) == CountOf(q, a, k, z) && SqlSum(q, a, k, z) == SumOf(q, a, k, z);
  }

  lemma StarIs(q: Query, a: AggSpec, k: Row, z: ZSet<Row>)
    ensures Mass(z, Seen(q, a, k)) == Mass(z, Taken(q, a, k))
  {
    forall r ensures Seen(q, a, k)(r) <==> Taken(q, a, k)(r) {
      TakesIff(q, a, k, r);
    }
    MassSame(z, Seen(q, a, k), Taken(q, a, k));
  }

  // ---- the grouped table ----

  // A group is listed while it has rows; without grouping columns there is
  // one group, from the first step on.
  ghost predicate Listed(q: Query, z: ZSet<Row>, stepped: bool, k: Row) {
    if q.numGroups == 0 then stepped else exists r :: W(z, r) > 0 && q.key(r) == k
  }

  // The one row of a listed group: its key, then the value of each aggregate.
  ghost function GroupedWeight(q: Query, z: ZSet<Row>, stepped: bool, o: Row): int {
    if |o| == q.numGroups + |q.aggs| && Listed(q, z, stepped, o[..q.numGroups])
       && forall i :: 0 <= i < |q.aggs| ==> IsValue(q, q.aggs[i], o[..q.numGroups], z, o[q.numGroups + i])
    then 1 else 0
  }

  // All aggregates of group k have the values shown.
  ghost predicate HasValues(q: Query, k: Row, z: ZSet<Row>, o: Row)
    requires |o| == |k| + |q.aggs|
  {
    forall i :: 0 <= i < |q.aggs| ==> IsValue(q, q.aggs[i], k, z, o[|k| + i])
  }

  lemma GroupedByValues(q: Query, z: ZSet<Row>, stepped: bool, k: Row, o: Row)
    requires |k| == q.numGroups && |o| == |k| + |q.aggs| && k == o[..|k|]
    ensures GroupedWeight(q, z, stepped, o) == if Listed(q, z, stepped, k) && HasValues(q, k, z, o) then 1 else 0
  {
  }

  lemma ListedIff(q: Query, z: ZSet<Row>, stepped: bool, k: Row)
    requires NonNeg(z) && |k| == q.numGroups
    ensures Shown(q, z, stepped, k) <==> Listed(q, z, stepped, k)
  {
    assert forall x :: x in z ==> W(z, x) == z[x];
    MassSign(z, InGroup(q, k));
    if r :| W(z, r) > 0 && q.key(r) == k {
      assert r in z && InGroup(q, k)(r);
    }
  }

  lemma RowIff(q: Query, k: Row, z: ZSet<Row>, o: Row)
    requires NonNeg(z) && Normal(z) && |o| >= |k| && k == o[..|k|]
    ensures SqlRow(q, k, z, o) <==> |o| == |k| + |q.aggs| && HasValues(q, k, z, o)
  {
    if |o| == |k| + |q.aggs| {
      forall i | 0 <= i < |q.aggs|
        ensures SqlValue(q, q.aggs[i], k, z, o[|k| + i]) <==> IsValue(q, q.aggs[i], k, z, o[|k| + i])
      {
        SqlIsValue(q, q.aggs[i], k, z, o[|k| + i]);
      }
    }
  }

  lemma SqlIsGrouped(q: Query, z: ZSet<Row>, stepped: bool, o: Row)
    requires NonNeg(z) && Normal(z)
    ensures SqlWeight(q, z, stepped, o) == GroupedWeight(q, z, stepped, o)
  {
    if |o| >= q.numGroups {
      var k := o[..q.numGroups];
      ListedIff(q, z, stepped, k);
      RowIff(q, k, z, o);
      if |o| == |k| + |q.aggs| {
        GroupedByValues(q, z, stepped, k, o);
      }
    }
  }

  // Over every run the node has emitted that table.
  lemma EmittedIsGrouped(node: PlanAggregateNode)
    requires node.Valid()
    ensures forall o {:trigger W(node.emitted, o)} ::
              W(node.emitted, o) == GroupedWeight(node.q, node.z, node.globalEmitted, o)
  {
    forall o ensures W(node.emitted, o) == GroupedWeight(node.q, node.z, node.globalEmitted, o) {
      SqlIsGrouped(node.q, node.z, node.globalEmitted, o);
    }
  }

  // ---- batches that show nothing ----

  // Aggregates that depend on the set of values alone.
  predicate OnValues(a: AggSpec) {
    a.fn == Min || a.fn == Max || (a.distinct && (a.fn == Count || a.fn == Sum || a.fn == Avg))
  }

  // The group neither appears nor disappears, and keeps its values.
  ghost predicate KeepsGroup(q: Query, z: ZSet<Row>, z': ZSet<Row>, k: Row) {
    && (Listed(q, z, true, k) <==> Listed(q, z', true, k))
    && (Listed(q, z, true, k) ==>
          forall i :: 0 <= i < |q.aggs| ==> ValueSet(q, q.aggs[i], k, z) == ValueSet(q, q.aggs[i], k, z'))
  }

  ghost predicate KeepsValues(q: Query, z: ZSet<Row>, z': ZSet<Row>) {
    forall k {:trigger KeepsGroup(q, z, z', k)} :: |k| == q.numGroups ==> KeepsGroup(q, z, z', k)
  }

  lemma ValuesDecide(q: Query, a: AggSpec, k: Row, z: ZSet<Row>, z': ZSet<Row>, value: Value)
    requires OnValues(a) && ValueSet(q, a, k, z) == ValueSet(q, a, k, z')
    ensures IsValue(q, a, k, z, value) <==> IsValue(q, a, k, z', value)
  {
  }

  lemma SameValues(q: Query, k: Row, z: ZSet<Row>, z': ZSet<Row>, o: Row)
    requires KeepsGroup(q, z, z', k) && Listed(q, z, true, k) && (forall a :: a in q.aggs ==> OnValues(a))
    requires |o| == |k| + |q.aggs|
    ensures HasValues(q, k, z, o) <==> HasValues(q, k, z', o)
  {
    forall i | 0 <= i < |q.aggs|
      ensures IsValue(q, q.aggs[i], k, z, o[|k| + i]) <==> IsValue(q, q.aggs[i], k, z', o[|k| + i])
    {
      assert q.aggs[i] in q.aggs;
      ValuesDecide(q, q.aggs[i], k, z, z', o[|k| + i]);
    }
  }

  lemma SameGroupedWeight(q: Query, z: ZSet<Row>, z': ZSet<Row>, stepped: bool, o: Row)
    requires KeepsValues(q, z, z') && (forall a :: a in q.aggs ==> OnValues(a)) && (q.numGroups == 0 ==> stepped)
    ensures GroupedWeight(q, z', true, o) == GroupedWeight(q, z, stepped, o)
  {
    if |o| == q.numGroups + |q.aggs| {
      var k := o[..q.numGroups];
      assert KeepsGroup(q, z, z', k);
      GroupedByValues(q, z, stepped, k, o);
      GroupedByValues(q, z', true, k, o);
      if Listed(q, z, true, k) {
        SameValues(q, k, z, z', o);
      }
    }
  }

  // Such a batch emits nothing, once the node has stepped.
  method StepQuietly(node: PlanAggregateNode, delta: ZSet<Row>)
    requires node.Valid() && NonNeg(Plus(node.z, delta)) && delta != map[]
    requires node.q.numGroups == 0 ==> node.globalEmitted
    requires forall a :: a in node.q.aggs ==> OnValues(a)
    requires KeepsValues(node.q, node.z, Plus(node.z, delta))
    modifies node
    ensures node.Valid() && node.z == Plus(old(node.z), delta)
    ensures forall o :: W(node.output, o) == 0
  {
    ghost var z, stepped := node.z, node.globalEmitted;
    node.Step(delta);
    forall o ensures W(node.output, o) == 0 {
      SqlIsGrouped(node.q, z, stepped, o);
      SqlIsGrouped(node.q, node.z, true, o);
      SameGroupedWeight(node.q, z, node.z, stepped, o);
    }
  }
}
