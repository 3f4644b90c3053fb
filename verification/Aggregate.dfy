// Incremental GROUP BY with retraction (include/dbsp_plan_aggregate.hpp),
// against the grouped table of the integrated input.
module GroupSemantics {
  import opened ZSets
  import opened Rows

  datatype Fn = CountStar | Count | Sum | Avg | Min | Max

  // One aggregate: its argument's position among the evaluated expressions,
  // and the position of its FILTER predicate.
  datatype AggSpec = AggSpec(fn: Fn, distinct: bool, arg: nat, filter: Option<nat>)

  // `key` and `args` are the evaluated group keys and arguments of a row.
  datatype Query = Query(key: Row -> Row, args: Row -> seq<Value>, numGroups: nat, aggs: seq<AggSpec>,
                         quot: (int, int) -> Value)

  ghost predicate KeyWidth(q: Query) {
    forall r :: |q.key(r)| == q.numGroups
  }

  function At(vs: seq<Value>, i: nat): Value {
    if i < |vs| then vs[i] else Null
  }

  predicate IsTrue(v: Value) {
    v.Val? && v.v != 0
  }

  predicate FilterPasses(a: AggSpec, args: seq<Value>) {
    a.filter.None? || IsTrue(At(args, a.filter.value))
  }

  // Rows of a group, those an aggregate sees, those with a value for it.
  function InGroup(q: Query, k: Row): Row -> bool {
    r => q.key(r) == k
  }

  function Seen(q: Query, a: AggSpec, k: Row): Row -> bool {
    r => q.key(r) == k && FilterPasses(a, q.args(r))
  }

  function Valued(q: Query, a: AggSpec, k: Row): Row -> bool {
    r => Seen(q, a, k)(r) && At(q.args(r), a.arg).Val?
  }

  function WithValue(q: Query, a: AggSpec, k: Row, v: int): Row -> bool {
    r => Valued(q, a, k)(r) && At(q.args(r), a.arg).v == v
  }

  function Contribution(q: Query, a: AggSpec, k: Row): Row -> int {
    r => if Valued(q, a, k)(r) then At(q.args(r), a.arg).v else 0
  }

  ghost function Multiplicity(q: Query, a: AggSpec, k: Row, z: ZSet<Row>, v: int): int {
    Mass(z, WithValue(q, a, k, v))
  }

  // The values present in the group, each once.
  ghost function Distinct(q: Query, a: AggSpec, k: Row, z: ZSet<Row>): set<int> {
    set r | r in z && Valued(q, a, k)(r) && Multiplicity(q, a, k, z, At(q.args(r), a.arg).v) > 0 :: At(q.args(r), a.arg).v
  }

  // Weighted sum of a row function.
  ghost function WeightedSum(z: ZSet<Row>, f: Row -> int): int {
    Total(z.Keys, r => W(z, r) * f(r))
  }

  function Identity(): int -> int {
    v => v
  }

  // ---- the SQL value of an aggregate ----

  predicate OnPresence(a: AggSpec) {
    a.distinct && (a.fn.Count? || a.fn.Sum? || a.fn.Avg?)
  }

  ghost function SqlCount(q: Query, a: AggSpec, k: Row, z: ZSet<Row>): int {
    if a.fn.CountStar? then Mass(z, Seen(q, a, k))
    else if OnPresence(a) then |Distinct(q, a, k, z)|
    else Mass(z, Valued(q, a, k))
  }

  ghost function SqlSum(q: Query, a: AggSpec, k: Row, z: ZSet<Row>): int {
    if OnPresence(a) then Total(Distinct(q, a, k, z), Identity()) else WeightedSum(z, Contribution(q, a, k))
  }

  ghost predicate IsLeast(s: set<int>, v: int) {
    v in s && forall x :: x in s ==> v <= x
  }

  ghost predicate IsGreatest(s: set<int>, v: int) {
    v in s && forall x :: x in s ==> x <= v
  }

  // NULL over no value, except for counts.
  ghost predicate SqlValue(q: Query, a: AggSpec, k: Row, z: ZSet<Row>, value: Value) {
    match a.fn
    case CountStar => value == Val(SqlCount(q, a, k, z))
    case Count => value == Val(SqlCount(q, a, k, z))
    case Sum => value == if SqlCount(q, a, k, z) == 0 then Null else Val(SqlSum(q, a, k, z))
    case Avg => value == if SqlCount(q, a, k, z) == 0 then Null else q.quot(SqlSum(q, a, k, z), SqlCount(q, a, k, z))
    case Min =>
      if Distinct(q, a, k, z) == {} then value == Null else value.Val? && IsLeast(Distinct(q, a, k, z), value.v)
    case Max =>
      if Distinct(q, a, k, z) == {} then value == Null else value.Val? && IsGreatest(Distinct(q, a, k, z), value.v)
  }

  ghost predicate SqlRow(q: Query, k: Row, z: ZSet<Row>, o: Row) {
    && |o| == |k| + |q.aggs| && o[..|k|] == k
    && forall i :: 0 <= i < |q.aggs| ==> SqlValue(q, q.aggs[i], k, z, o[|k| + i])
  }

  // ---- one more row ----

  lemma WeightedSumInsert(z: ZSet<Row>, x: Row, w: int, f: Row -> int)
    ensures WeightedSum(Insert(z, x, w), f) == WeightedSum(z, f) + w * f(x)
  {
    var z' := Insert(z, x, w);
    var s := z.Keys + {x};
    var before, after := (r: Row) => W(z, r) * f(r), (r: Row) => W(z', r) * f(r);
    var one := (r: Row) => if r == x then w * f(x) else 0;
    TotalWiden(z.Keys, s, before);
    TotalWiden(z'.Keys, s, after);
    forall r | r in s ensures after(r) == before(r) + one(r) {
      InsertedTerm(z, x, w, f(r), r);
    }
    TotalLinear(s, before, one, after);
    TotalWiden({x}, s, one);
    TotalAdd({}, x, one);
    assert {x} == {} + {x};
  }

  lemma InsertedTerm(z: ZSet<Row>, x: Row, w: int, fr: int, r: Row)
    ensures W(Insert(z, x, w), r) * fr == W(z, r) * fr + if r == x then w * fr else 0
  {
    if r == x {
      Distribute(W(z, r), w, fr);
    }
  }

  lemma Distribute(a: int, b: int, c: int)
    ensures (a + b) * c == a * c + b * c
  {
  }

  lemma WeightedSame(z: ZSet<Row>, f: Row -> int, g: Row -> int)
    requires forall r :: r in z ==> f(r) == g(r)
    ensures WeightedSum(z, f) == WeightedSum(z, g)
  {
    TotalCongruent(z.Keys, r => W(z, r) * f(r), r => W(z, r) * g(r));
  }

  // A value is in the distinct set exactly if its multiplicity is positive.
  lemma DistinctIff(q: Query, a: AggSpec, k: Row, z: ZSet<Row>, v: int)
    requires NonNeg(z)
    ensures v in Distinct(q, a, k, z) <==> Multiplicity(q, a, k, z, v) > 0
    ensures Multiplicity(q, a, k, z, v) >= 0
  {
    assert forall x :: x in z ==> W(z, x) == z[x];
    MassSign(z, WithValue(q, a, k, v));
    if Multiplicity(q, a, k, z, v) > 0 {
      var r :| r in z && WithValue(q, a, k, v)(r) && z[r] > 0;
    }
  }

  // How the distinct set changes with one row.
  lemma DistinctStepAt(q: Query, a: AggSpec, k: Row, z: ZSet<Row>, x: Row, w: int, u: int)
    requires NonNeg(z) && NonNeg(Insert(z, x, w))
    ensures Multiplicity(q, a, k, Insert(z, x, w), u) == Multiplicity(q, a, k, z, u) + if WithValue(q, a, k, u)(x) then w else 0
    ensures u in Distinct(q, a, k, Insert(z, x, w)) <==> Multiplicity(q, a, k, Insert(z, x, w), u) > 0
    ensures u in Distinct(q, a, k, z) <==> Multiplicity(q, a, k, z, u) > 0
  {
    MassInsert(z, x, w, WithValue(q, a, k, u));
    DistinctIff(q, a, k, z, u);
    DistinctIff(q, a, k, Insert(z, x, w), u);
  }

  lemma DistinctStep(q: Query, a: AggSpec, k: Row, z: ZSet<Row>, x: Row, w: int)
    requires NonNeg(z) && NonNeg(Insert(z, x, w)) && Valued(q, a, k)(x)
    ensures var v := At(q.args(x), a.arg).v;
            Distinct(q, a, k, Insert(z, x, w))
            == if Multiplicity(q, a, k, z, v) + w > 0 then Distinct(q, a, k, z) + {v} else Distinct(q, a, k, z) - {v}
  {
    var v := At(q.args(x), a.arg).v;
    var before, after := Distinct(q, a, k, z), Distinct(q, a, k, Insert(z, x, w));
    DistinctStepAt(q, a, k, z, x, w, v);
    forall u | u != v ensures u in after <==> u in before {
      DistinctStepAt(q, a, k, z, x, w, u);
    }
    OneMemberMoves(before, after, v, Multiplicity(q, a, k, z, v) + w > 0);
  }

  lemma OneMemberMoves(before: set<int>, after: set<int>, v: int, present: bool)
    requires (v in after <==> present) && forall u :: u != v ==> (u in after <==> u in before)
    ensures after == if present then before + {v} else before - {v}
  {
    var moved := if present then before + {v} else before - {v};
    forall u ensures u in after <==> u in moved {
      assert u == v || (u in after <==> u in before);
    }
  }

  lemma DistinctStays(q: Query, a: AggSpec, k: Row, z: ZSet<Row>, x: Row, w: int)
    requires NonNeg(z) && NonNeg(Insert(z, x, w)) && !Valued(q, a, k)(x)
    ensures Distinct(q, a, k, Insert(z, x, w)) == Distinct(q, a, k, z)
  {
    forall u ensures u in Distinct(q, a, k, Insert(z, x, w)) <==> u in Distinct(q, a, k, z) {
      DistinctStepAt(q, a, k, z, x, w, u);
    }
  }

  // ---- only a group's own rows matter to it ----

  ghost predicate SameOnGroup(q: Query, k: Row, y: ZSet<Row>, z: ZSet<Row>) {
    forall r {:trigger W(y, r)} {:trigger W(z, r)} :: q.key(r) == k ==> W(y, r) == W(z, r)
  }

  lemma SumAgrees(q: Query, a: AggSpec, k: Row, y: ZSet<Row>, z: ZSet<Row>)
    requires SameOnGroup(q, k, y, z)
    ensures WeightedSum(y, Contribution(q, a, k)) == WeightedSum(z, Contribution(q, a, k))
  {
    var f := Contribution(q, a, k);
    var s := y.Keys + z.Keys;
    var fy, fz := (r: Row) => W(y, r) * f(r), (r: Row) => W(z, r) * f(r);
    TotalWiden(y.Keys, s, fy);
    TotalWiden(z.Keys, s, fz);
    forall r | r in s ensures fy(r) == fz(r) {
      SameTerm(W(y, r), W(z, r), f(r));
    }
    TotalCongruent(s, fy, fz);
  }

  lemma SameTerm(a: int, b: int, c: int)
    requires a == b || c == 0
    ensures a * c == b * c
  {
  }

  lemma DistinctAgrees(q: Query, a: AggSpec, k: Row, y: ZSet<Row>, z: ZSet<Row>)
    requires SameOnGroup(q, k, y, z) && NonNeg(y) && NonNeg(z)
    ensures Distinct(q, a, k, y) == Distinct(q, a, k, z)
    ensures forall v :: Multiplicity(q, a, k, y, v) == Multiplicity(q, a, k, z, v)
  {
    forall v ensures Multiplicity(q, a, k, y, v) == Multiplicity(q, a, k, z, v)
             ensures v in Distinct(q, a, k, y) <==> v in Distinct(q, a, k, z)
    {
      MassAgrees(y, z, WithValue(q, a, k, v));
      DistinctIff(q, a, k, y, v);
      DistinctIff(q, a, k, z, v);
    }
  }
}

// The accumulators of one group.
module GroupState {
  import opened ZSets
  import opened Rows
  import opened GroupSemantics

  // vcounts: value -> multiplicity (MIN/MAX); dvals: value -> weight
  // (DISTINCT).
  datatype AggState = AggState(count: int, sum: int, vcounts: ZSet<int>, dvals: ZSet<int>)

  const FRESH: AggState := AggState(0, 0, map[], map[])

  datatype Group = Group(rowWeight: int, aggs: seq<AggState>)

  ghost predicate CountsTrue(counts: ZSet<int>, q: Query, a: AggSpec, k: Row, z: ZSet<Row>) {
    Normal(counts) && forall v {:trigger W(counts, v)} :: W(counts, v) == Multiplicity(q, a, k, z, v)
  }

  // The accumulators say what SQL says of the group's rows in z.
  ghost predicate AggTrue(q: Query, a: AggSpec, k: Row, s: AggState, z: ZSet<Row>) {
    && s.count == SqlCount(q, a, k, z)
    && (a.fn.Sum? || a.fn.Avg? ==> s.sum == SqlSum(q, a, k, z))
    && (a.fn.Min? || a.fn.Max? ==> CountsTrue(s.vcounts, q, a, k, z))
    && (a.distinct && !a.fn.CountStar? ==> CountsTrue(s.dvals, q, a, k, z))
  }

  ghost predicate GroupTrue(q: Query, k: Row, g: Group, z: ZSet<Row>) {
    && g.rowWeight == Mass(z, InGroup(q, k))
    && |g.aggs| == |q.aggs|
    && forall i :: 0 <= i < |q.aggs| ==> AggTrue(q, q.aggs[i], k, g.aggs[i], z)
  }

  // ---- one contribution to one aggregate ----

  // +1 when a weight becomes positive, -1 when it stops being so.
  function Transition(before: int, w: int): int {
    (if before + w > 0 then 1 else 0) - (if before > 0 then 1 else 0)
  }

  function Signed(v: int, d: int): int {
    if d > 0 then v else if d < 0 then -v else 0
  }

  method ApplyPresence(a: AggSpec, s: AggState, v: int, w: int) returns (r: AggState)
    ensures r.vcounts == s.vcounts && r.dvals == Insert(s.dvals, v, w)
    ensures r.count == s.count + Transition(W(s.dvals, v), w)
    ensures a.fn.Sum? || a.fn.Avg? ==> r.sum == s.sum + Signed(v, Transition(W(s.dvals, v), w))
  {
    var was := W(s.dvals, v) > 0;
    var dvals := Insert(s.dvals, v, w);
    var now := W(dvals, v) > 0;
    r := s.(dvals := dvals);
    var d := (if now then 1 else 0) - (if was then 1 else 0);
    if d == 0 {
      return;
    }
    r := r.(count := r.count + d);
    if a.fn.Sum? || a.fn.Avg? {
      r := r.(sum := r.sum + v * d);
    }
  }

  method ApplyAgg(q: Query, a: AggSpec, k: Row, s: AggState, ghost z: ZSet<Row>, row: Row, w: int) returns (r: AggState)
    requires NonNeg(z) && NonNeg(Insert(z, row, w)) && q.key(row) == k && AggTrue(q, a, k, s, z)
    ensures AggTrue(q, a, k, r, Insert(z, row, w))
  {
    var args := q.args(row);
    RowMasses(q, a, k, z, row, w);
    if !FilterPasses(a, args) {
      UnseenRow(q, a, k, s, z, row, w);
      return s;
    }
    if a.fn.CountStar? {
      return s.(count := s.count + w);
    }
    var v := At(args, a.arg);
    if v.Null? {
      UnseenRow(q, a, k, s, z, row, w);
      return s;
    }
    if OnPresence(a) {
      r := ApplyPresence(a, s, v.v, w);
      PresenceRow(q, a, k, s, z, row, w, r);
      return;
    }
    r := s.(count := s.count + w);
    if a.distinct {
      r := r.(dvals := Insert(r.dvals, v.v, w));
    }
    if a.fn.Sum? || a.fn.Avg? {
      r := r.(sum := r.sum + v.v * w);
    } else if a.fn.Min? || a.fn.Max? {
      r := r.(vcounts := Insert(r.vcounts, v.v, w));
    }
    PlainRow(q, a, k, s, z, row, w, r);
  }

  lemma RowMasses(q: Query, a: AggSpec, k: Row, z: ZSet<Row>, row: Row, w: int)
    ensures Mass(Insert(z, row, w), Seen(q, a, k)) == Mass(z, Seen(q, a, k)) + if Seen(q, a, k)(row) then w else 0
    ensures Mass(Insert(z, row, w), Valued(q, a, k)) == Mass(z, Valued(q, a, k)) + if Valued(q, a, k)(row) then w else 0
    ensures WeightedSum(Insert(z, row, w), Contribution(q, a, k))
         == WeightedSum(z, Contribution(q, a, k)) + if Valued(q, a, k)(row) then At(q.args(row), a.arg).v * w else 0
  {
    MassInsert(z, row, w, Seen(q, a, k));
    MassInsert(z, row, w, Valued(q, a, k));
    RowSum(z, row, w, Contribution(q, a, k), if Valued(q, a, k)(row) then At(q.args(row), a.arg).v else 0);
  }

  lemma RowSum(z: ZSet<Row>, row: Row, w: int, f: Row -> int, c: int)
    requires c == f(row)
    ensures WeightedSum(Insert(z, row, w), f) == WeightedSum(z, f) + c * w
  {
    WeightedSumInsert(z, row, w, f);
    assert w * c == c * w;
  }

  lemma CountsStep(q: Query, a: AggSpec, k: Row, counts: ZSet<int>, z: ZSet<Row>, row: Row, w: int)
    requires NonNeg(z) && NonNeg(Insert(z, row, w)) && CountsTrue(counts, q, a, k, z)
    ensures Valued(q, a, k)(row) ==> CountsTrue(Insert(counts, At(q.args(row), a.arg).v, w), q, a, k, Insert(z, row, w))
    ensures !Valued(q, a, k)(row) ==> CountsTrue(counts, q, a, k, Insert(z, row, w))
  {
    forall v ensures Multiplicity(q, a, k, Insert(z, row, w), v)
                     == Multiplicity(q, a, k, z, v) + if WithValue(q, a, k, v)(row) then w else 0
    {
      DistinctStepAt(q, a, k, z, row, w, v);
    }
  }

  // A row the aggregate ignores leaves its accumulators right.
  lemma UnseenRow(q: Query, a: AggSpec, k: Row, s: AggState, z: ZSet<Row>, row: Row, w: int)
    requires NonNeg(z) && NonNeg(Insert(z, row, w)) && AggTrue(q, a, k, s, z)
    requires !Valued(q, a, k)(row) && (a.fn.CountStar? ==> !Seen(q, a, k)(row))
    ensures AggTrue(q, a, k, s, Insert(z, row, w))
  {
    RowMasses(q, a, k, z, row, w);
    DistinctStays(q, a, k, z, row, w);
    if a.fn.Min? || a.fn.Max? {
      CountsStep(q, a, k, s.vcounts, z, row, w);
    }
    if a.distinct && !a.fn.CountStar? {
      CountsStep(q, a, k, s.dvals, z, row, w);
    }
  }

  lemma PlainRow(q: Query, a: AggSpec, k: Row, s: AggState, z: ZSet<Row>, row: Row, w: int, r: AggState)
    requires NonNeg(z) && NonNeg(Insert(z, row, w)) && AggTrue(q, a, k, s, z)
    requires Valued(q, a, k)(row) && !a.fn.CountStar? && !OnPresence(a)
    requires r.count == s.count + w
    requires a.fn.Sum? || a.fn.Avg? ==> r.sum == s.sum + At(q.args(row), a.arg).v * w
    requires a.fn.Min? || a.fn.Max? ==> r.vcounts == Insert(s.vcounts, At(q.args(row), a.arg).v, w)
    requires a.distinct ==> r.dvals == Insert(s.dvals, At(q.args(row), a.arg).v, w)
    ensures AggTrue(q, a, k, r, Insert(z, row, w))
  {
    PlainMasses(q, a, k, z, row, w);
    if a.fn.Min? || a.fn.Max? {
      CountsStep(q, a, k, s.vcounts, z, row, w);
    }
    if a.distinct {
      CountsStep(q, a, k, s.dvals, z, row, w);
    }
  }

  lemma PlainMasses(q: Query, a: AggSpec, k: Row, z: ZSet<Row>, row: Row, w: int)
    requires Valued(q, a, k)(row) && !a.fn.CountStar? && !OnPresence(a)
    ensures SqlCount(q, a, k, Insert(z, row, w)) == SqlCount(q, a, k, z) + w
    ensures SqlSum(q, a, k, Insert(z, row, w)) == SqlSum(q, a, k, z) + At(q.args(row), a.arg).v * w
  {
    RowMasses(q, a, k, z, row, w);
  }

  // DISTINCT: the presence transition of one value moves count and sum.
  lemma PresenceRow(q: Query, a: AggSpec, k: Row, s: AggState, z: ZSet<Row>, row: Row, w: int, r: AggState)
    requires NonNeg(z) && NonNeg(Insert(z, row, w)) && AggTrue(q, a, k, s, z)
    requires Valued(q, a, k)(row) && OnPresence(a)
    requires var v := At(q.args(row), a.arg).v;
             var d := Transition(W(s.dvals, v), w);
             r.count == s.count + d && (a.fn.Sum? || a.fn.Avg? ==> r.sum == s.sum + Signed(v, d))
             && r.dvals == Insert(s.dvals, v, w)
    ensures AggTrue(q, a, k, r, Insert(z, row, w))
  {
    var v := At(q.args(row), a.arg).v;
    CountsStep(q, a, k, s.dvals, z, row, w);
    assert W(s.dvals, v) == Multiplicity(q, a, k, z, v);
    PresenceCount(q, a, k, z, row, w);
  }

  lemma PresenceCount(q: Query, a: AggSpec, k: Row, z: ZSet<Row>, row: Row, w: int)
    requires NonNeg(z) && NonNeg(Insert(z, row, w)) && Valued(q, a, k)(row) && OnPresence(a)
    ensures var v := At(q.args(row), a.arg).v;
            var d := Transition(Multiplicity(q, a, k, z, v), w);
            && SqlCount(q, a, k, Insert(z, row, w)) == SqlCount(q, a, k, z) + d
            && SqlSum(q, a, k, Insert(z, row, w)) == SqlSum(q, a, k, z) + Signed(v, d)
  {
    var v, z' := At(q.args(row), a.arg).v, Insert(z, row, w);
    PresenceSets(q, a, k, z, row, w);
    PresenceMoves(Distinct(q, a, k, z), Distinct(q, a, k, z'), v, Multiplicity(q, a, k, z, v), w);
    PresenceParts(q, a, k, z);
    PresenceParts(q, a, k, z');
  }

  lemma PresenceParts(q: Query, a: AggSpec, k: Row, z: ZSet<Row>)
    requires OnPresence(a)
    ensures SqlCount(q, a, k, z) == |Distinct(q, a, k, z)| && SqlSum(q, a, k, z) == Total(Distinct(q, a, k, z), Identity())
  {
  }

  lemma PresenceMoves(before: set<int>, after: set<int>, v: int, m: int, w: int)
    requires (v in before <==> m > 0) && (v in after <==> m + w > 0)
    requires after == before + {v} || after == before - {v}
    ensures |after| == |before| + Transition(m, w)
    ensures Total(after, Identity()) == Total(before, Identity()) + Signed(v, Transition(m, w))
  {
    SetStep(before, after, v);
  }

  lemma PresenceSets(q: Query, a: AggSpec, k: Row, z: ZSet<Row>, row: Row, w: int)
    requires NonNeg(z) && NonNeg(Insert(z, row, w)) && Valued(q, a, k)(row)
    ensures var v := At(q.args(row), a.arg).v;
            var before, after := Distinct(q, a, k, z), Distinct(q, a, k, Insert(z, row, w));
            && (v in before <==> Multiplicity(q, a, k, z, v) > 0)
            && (v in after <==> Multiplicity(q, a, k, z, v) + w > 0)
            && (after == before + {v} || after == before - {v})
  {
    DistinctStep(q, a, k, z, row, w);
    DistinctIff(q, a, k, z, At(q.args(row), a.arg).v);
  }

  lemma SetStep(before: set<int>, after: set<int>, v: int)
    requires after == before + {v} || after == before - {v}
    ensures var d := (if v in after then 1 else 0) - (if v in before then 1 else 0);
            |after| == |before| + d && Total(after, Identity()) == Total(before, Identity()) + Signed(v, d)
  {
    if v in before && v !in after {
      TotalAdd(after, v, Identity());
      assert before == after + {v};
    } else if v !in before && v in after {
      TotalAdd(before, v, Identity());
      assert after == before + {v};
    } else {
      assert after == before;
    }
  }

  // ---- a whole group ----

  method ApplyRow(q: Query, k: Row, g: Group, ghost z: ZSet<Row>, row: Row, w: int) returns (r: Group)
    requires NonNeg(z) && NonNeg(Insert(z, row, w)) && q.key(row) == k && GroupTrue(q, k, g, z)
    ensures GroupTrue(q, k, r, Insert(z, row, w))
  {
    var aggs: seq<AggState> := [];
    for i := 0 to |q.aggs|
      invariant |aggs| == i
      invariant forall j :: 0 <= j < i ==> AggTrue(q, q.aggs[j], k, aggs[j], Insert(z, row, w))
    {
      var s := ApplyAgg(q, q.aggs[i], k, g.aggs[i], z, row, w);
      aggs := aggs + [s];
    }
    MassInsert(z, row, w, InGroup(q, k));
    r := Group(g.rowWeight + w, aggs);
  }

  lemma AggAgrees(q: Query, a: AggSpec, k: Row, s: AggState, y: ZSet<Row>, z: ZSet<Row>)
    requires SameOnGroup(q, k, y, z) && NonNeg(y) && NonNeg(z) && AggTrue(q, a, k, s, y)
    ensures AggTrue(q, a, k, s, z)
  {
    MassAgrees(y, z, Seen(q, a, k));
    MassAgrees(y, z, Valued(q, a, k));
    SumAgrees(q, a, k, y, z);
    DistinctAgrees(q, a, k, y, z);
  }

  lemma GroupAgrees(q: Query, k: Row, g: Group, y: ZSet<Row>, z: ZSet<Row>)
    requires SameOnGroup(q, k, y, z) && NonNeg(y) && NonNeg(z) && GroupTrue(q, k, g, y)
    ensures GroupTrue(q, k, g, z)
  {
    MassAgrees(y, z, InGroup(q, k));
    forall i | 0 <= i < |q.aggs| ensures AggTrue(q, q.aggs[i], k, g.aggs[i], z) {
      AggAgrees(q, q.aggs[i], k, g.aggs[i], y, z);
    }
  }

  function FreshGroup(q: Query): Group {
    Group(0, seq(|q.aggs|, _ => FRESH))
  }

  // A group of weight 0 has no rows, and fresh accumulators describe it.
  lemma EmptyGroup(q: Query, k: Row, z: ZSet<Row>)
    requires NonNeg(z) && Mass(z, InGroup(q, k)) == 0
    ensures GroupTrue(q, k, FreshGroup(q), z)
  {
    NoRows(q, k, z);
    assert SameOnGroup(q, k, map[], z);
    FreshIsTrue(q, k);
    GroupAgrees(q, k, FreshGroup(q), map[], z);
  }

  lemma NoRows(q: Query, k: Row, z: ZSet<Row>)
    requires NonNeg(z) && Mass(z, InGroup(q, k)) == 0
    ensures forall r :: q.key(r) == k ==> W(z, r) == 0
  {
    assert forall x :: x in z ==> W(z, x) == z[x];
    MassSign(z, InGroup(q, k));
    forall r | q.key(r) == k ensures W(z, r) == 0 {
      assert InGroup(q, k)(r);
    }
  }

  lemma FreshIsTrue(q: Query, k: Row)
    ensures GroupTrue(q, k, FreshGroup(q), map[])
  {
    forall i | 0 <= i < |q.aggs| ensures AggTrue(q, q.aggs[i], k, FRESH, map[]) {
      assert Distinct(q, q.aggs[i], k, map[]) == {};
    }
  }

  // ---- reading the accumulators ----

  method Pick<T(==)>(s: set<T>) returns (x: T)
    requires s != {}
    ensures x in s
  {
    x :| x in s;
  }

  method Least(s: set<int>) returns (v: Value)
    ensures if s == {} then v == Null else v.Val? && IsLeast(s, v.v)
  {
    v := Null;
    var todo := s;
    ghost var seen: set<int> := {};
    while todo != {}
      invariant seen + todo == s
      invariant if seen == {} then v == Null else v.Val? && IsLeast(seen, v.v)
      decreases todo
    {
      var x := Pick(todo);
      todo := todo - {x};
      seen := seen + {x};
      if v.Null? || x < v.v {
        v := Val(x);
      }
    }
  }

  method Greatest(s: set<int>) returns (v: Value)
    ensures if s == {} then v == Null else v.Val? && IsGreatest(s, v.v)
  {
    v := Null;
    var todo := s;
    ghost var seen: set<int> := {};
    while todo != {}
      invariant seen + todo == s
      invariant if seen == {} then v == Null else v.Val? && IsGreatest(seen, v.v)
      decreases todo
    {
      var x := Pick(todo);
      todo := todo - {x};
      seen := seen + {x};
      if v.Null? || x > v.v {
        v := Val(x);
      }
    }
  }

  // The count map of MIN/MAX holds exactly the values present.
  lemma CountKeys(q: Query, a: AggSpec, k: Row, counts: ZSet<int>, z: ZSet<Row>)
    requires NonNeg(z) && CountsTrue(counts, q, a, k, z)
    ensures counts.Keys == Distinct(q, a, k, z)
  {
    forall v ensures v in counts.Keys <==> v in Distinct(q, a, k, z) {
      DistinctIff(q, a, k, z, v);
      assert W(counts, v) == Multiplicity(q, a, k, z, v);
    }
  }

  // agg_value.
  method AggValue(q: Query, a: AggSpec, ghost k: Row, s: AggState, ghost z: ZSet<Row>) returns (v: Value)
    requires NonNeg(z) && AggTrue(q, a, k, s, z)
    ensures SqlValue(q, a, k, z, v)
  {
    match a.fn {
      case CountStar => v := Val(s.count);
      case Count => v := Val(s.count);
      case Sum => v := if s.count == 0 then Null else Val(s.sum);
      case Avg => v := if s.count == 0 then Null else q.quot(s.sum, s.count);
      case Min =>
        CountKeys(q, a, k, s.vcounts, z);
        v := Least(s.vcounts.Keys);
      case Max =>
        CountKeys(q, a, k, s.vcounts, z);
        v := Greatest(s.vcounts.Keys);
    }
  }

  // result_row.
  method ResultRow(q: Query, k: Row, g: Group, ghost z: ZSet<Row>) returns (o: Row)
    requires NonNeg(z) && GroupTrue(q, k, g, z)
    ensures SqlRow(q, k, z, o)
  {
    o := k;
    for i := 0 to |q.aggs|
      invariant |o| == |k| + i && o[..|k|] == k
      invariant forall j :: 0 <= j < i ==> SqlValue(q, q.aggs[j], k, z, o[|k| + j])
    {
      var v := AggValue(q, q.aggs[i], k, g.aggs[i], z);
      o := o + [v];
    }
  }

  // The SQL row of a group is unique.
  lemma SqlRowUnique(q: Query, k: Row, z: ZSet<Row>, a: Row, b: Row)
    requires SqlRow(q, k, z, a) && SqlRow(q, k, z, b)
    ensures a == b
  {
    forall i | 0 <= i < |a| ensures a[i] == b[i] {
      if i < |k| {
        assert a[i] == a[..|k|][i] && b[i] == b[..|k|][i];
      } else {
        assert SqlValue(q, q.aggs[i - |k|], k, z, a[|k| + (i - |k|)]);
        assert SqlValue(q, q.aggs[i - |k|], k, z, b[|k| + (i - |k|)]);
      }
    }
  }
}

// The aggregate node: one step per batch of changes.
module AggregateNode {
  import opened ZSets
  import opened Rows
  import opened GroupSemantics
  import opened GroupState

  type States = map<Row, Group>

  // Which groups the SQL result lists: every group with rows; without
  // grouping columns the one group, from the first step on.
  ghost predicate Shown(q: Query, z: ZSet<Row>, stepped: bool, k: Row) {
    if q.numGroups == 0 then k == [] && stepped else Mass(z, InGroup(q, k)) > 0
  }

  // The grouped table, pointwise.
  ghost function SqlWeight(q: Query, z: ZSet<Row>, stepped: bool, o: Row): int {
    if |o| >= q.numGroups && Shown(q, z, stepped, o[..q.numGroups]) && SqlRow(q, o[..q.numGroups], z, o) then 1 else 0
  }

  ghost predicate StateTrue(q: Query, states: States, z: ZSet<Row>, k: Row) {
    if k in states then GroupTrue(q, k, states[k], z) && (q.numGroups != 0 ==> states[k].rowWeight > 0)
    else Mass(z, InGroup(q, k)) == 0
  }

  // The state of group k; missing groups start fresh.
  function StateOf(q: Query, states: States, k: Row): Group {
    if k in states then states[k] else FreshGroup(q)
  }

  lemma StateOfTrue(q: Query, states: States, z: ZSet<Row>, k: Row)
    requires NonNeg(z) && StateTrue(q, states, z, k)
    ensures GroupTrue(q, k, StateOf(q, states, k), z)
  {
    if k !in states {
      EmptyGroup(q, k, z);
    }
  }

  // ---- bucketing the batch ----

  // The input with the changes of `done` rows applied.
  ghost predicate Midway(z: ZSet<Row>, delta: ZSet<Row>, done: set<Row>, mid: ZSet<Row>) {
    forall r {:trigger W(mid, r)} :: W(mid, r) == W(z, r) + if r in done then W(delta, r) else 0
  }

  lemma MidwayNonNeg(z: ZSet<Row>, delta: ZSet<Row>, done: set<Row>, mid: ZSet<Row>)
    requires NonNeg(z) && NonNeg(Plus(z, delta)) && Midway(z, delta, done, mid)
    ensures NonNeg(mid)
  {
    forall r ensures W(mid, r) >= 0 {
      assert W(Plus(z, delta), r) >= 0 && W(z, r) >= 0;
    }
  }

  // Apply all of one group's contributions.
  method ApplyGroup(q: Query, k: Row, g0: Group, ghost z: ZSet<Row>, delta: ZSet<Row>, rows: set<Row>) returns (g: Group)
    requires NonNeg(z) && NonNeg(Plus(z, delta)) && GroupTrue(q, k, g0, z)
    requires forall r :: r in rows <==> r in delta && q.key(r) == k
    ensures GroupTrue(q, k, g, Plus(z, delta))
  {
    g := g0;
    var todo := rows;
    ghost var mid := z;
    while todo != {}
      invariant todo <= rows && Midway(z, delta, rows - todo, mid) && NonNeg(mid) && GroupTrue(q, k, g, mid)
      decreases todo
    {
      var r :| r in todo;
      ghost var next := Insert(mid, r, delta[r]);
      MidwayStep(z, delta, rows - todo, mid, r, rows - (todo - {r}), next);
      MidwayNonNeg(z, delta, rows - (todo - {r}), next);
      g := ApplyRow(q, k, g, mid, r, delta[r]);
      todo := todo - {r};
      mid := next;
    }
    GroupDone(q, k, z, delta, rows, mid);
    GroupAgrees(q, k, g, mid, Plus(z, delta));
  }

  lemma MidwayStep(z: ZSet<Row>, delta: ZSet<Row>, done: set<Row>, mid: ZSet<Row>, r: Row, done': set<Row>, next: ZSet<Row>)
    requires Midway(z, delta, done, mid) && r !in done && done' == done + {r} && r in delta
    requires next == Insert(mid, r, delta[r])
    ensures Midway(z, delta, done', next)
  {
  }

  lemma GroupDone(q: Query, k: Row, z: ZSet<Row>, delta: ZSet<Row>, rows: set<Row>, mid: ZSet<Row>)
    requires Midway(z, delta, rows, mid) && forall r :: r in rows <==> r in delta && q.key(r) == k
    ensures SameOnGroup(q, k, mid, Plus(z, delta))
  {
    forall r | q.key(r) == k ensures W(mid, r) == W(Plus(z, delta), r) {
      assert r !in rows ==> W(delta, r) == 0;
    }
  }

  // The keys of the batch, each with its rows.
  ghost predicate Bucketed(q: Query, rows: set<Row>, buckets: map<Row, set<Row>>) {
    && (forall r :: r in rows ==> q.key(r) in buckets && r in buckets[q.key(r)])
    && (forall k :: k in buckets ==> buckets[k] != {})
    && forall k, r :: k in buckets && r in buckets[k] ==> r in rows && q.key(r) == k
  }

  method Buckets(q: Query, delta: ZSet<Row>) returns (buckets: map<Row, set<Row>>)
    ensures Bucketed(q, delta.Keys, buckets)
  {
    buckets := map[];
    var todo := delta.Keys;
    ghost var done: set<Row> := {};
    while todo != {}
      invariant done + todo == delta.Keys && Bucketed(q, done, buckets)
      decreases todo
    {
      var row :| row in todo;
      var k := q.key(row);
      BucketStep(q, done, buckets, row);
      buckets := buckets[k := (if k in buckets then buckets[k] else {}) + {row}];
      todo := todo - {row};
      done := done + {row};
    }
  }

  lemma BucketStep(q: Query, done: set<Row>, buckets: map<Row, set<Row>>, row: Row)
    requires Bucketed(q, done, buckets)
    ensures var k := q.key(row);
            Bucketed(q, done + {row}, buckets[k := (if k in buckets then buckets[k] else {}) + {row}])
  {
  }

  // ---- one group's turn ----

  predicate OfGroup(q: Query, k: Row, o: Row) {
    |o| >= q.numGroups && o[..q.numGroups] == k
  }

  // The one row of a shown group.
  lemma GroupWeight(q: Query, z: ZSet<Row>, stepped: bool, k: Row, row: Row, o: Row)
    requires |k| == q.numGroups && SqlRow(q, k, z, row) && OfGroup(q, k, o)
    ensures SqlWeight(q, z, stepped, o) == if Shown(q, z, stepped, k) && o == row then 1 else 0
  {
    if SqlRow(q, k, z, o) {
      SqlRowUnique(q, k, z, o, row);
    }
  }

  // What group k contributes to the node's output.
  ghost predicate Replaced(q: Query, z: ZSet<Row>, z': ZSet<Row>, stepped: bool, k: Row, out: ZSet<Row>, next: ZSet<Row>) {
    forall o {:trigger W(next, o)} ::
      W(next, o) == W(out, o) + if OfGroup(q, k, o) then SqlWeight(q, z', true, o) - SqlWeight(q, z, stepped, o) else 0
  }

  method Retract(q: Query, k: Row, g: Group, ghost z: ZSet<Row>, stepped: bool, hadRow: bool, out: ZSet<Row>) returns (r: ZSet<Row>)
    requires NonNeg(z) && GroupTrue(q, k, g, z) && |k| == q.numGroups && (hadRow <==> Shown(q, z, stepped, k))
    ensures forall o {:trigger W(r, o)} :: W(r, o) == W(out, o) - if OfGroup(q, k, o) then SqlWeight(q, z, stepped, o) else 0
  {
    var row := ResultRow(q, k, g, z);
    r := if hadRow then Insert(out, row, -1) else out;
    assert OfGroup(q, k, row);
    forall o ensures W(r, o) == W(out, o) - if OfGroup(q, k, o) then SqlWeight(q, z, stepped, o) else 0 {
      if OfGroup(q, k, o) {
        GroupWeight(q, z, stepped, k, row, o);
      }
    }
  }

  method Emit(q: Query, k: Row, g: Group, ghost z: ZSet<Row>, show: bool, out: ZSet<Row>) returns (r: ZSet<Row>)
    requires NonNeg(z) && GroupTrue(q, k, g, z) && |k| == q.numGroups && (show <==> Shown(q, z, true, k))
    ensures forall o {:trigger W(r, o)} :: W(r, o) == W(out, o) + if OfGroup(q, k, o) then SqlWeight(q, z, true, o) else 0
  {
    var row := ResultRow(q, k, g, z);
    r := if show then Insert(out, row, 1) else out;
    assert OfGroup(q, k, row);
    forall o ensures W(r, o) == W(out, o) + if OfGroup(q, k, o) then SqlWeight(q, z, true, o) else 0 {
      if OfGroup(q, k, o) {
        GroupWeight(q, z, true, k, row, o);
      }
    }
  }

  lemma GroupSizeSign(q: Query, k: Row, z: ZSet<Row>)
    requires NonNeg(z)
    ensures Mass(z, InGroup(q, k)) >= 0
  {
    assert forall x :: x in z ==> W(z, x) == z[x];
    MassSign(z, InGroup(q, k));
  }

  method ProcessGroup(q: Query, states0: States, stepped: bool, ghost z: ZSet<Row>, delta: ZSet<Row>, k: Row, rows: set<Row>,
                      out0: ZSet<Row>)
    returns (states: States, out: ZSet<Row>)
    requires NonNeg(z) && NonNeg(Plus(z, delta)) && |k| == q.numGroups && StateTrue(q, states0, z, k)
    requires forall r :: r in rows <==> r in delta && q.key(r) == k
    ensures StateTrue(q, states, Plus(z, delta), k)
    ensures forall x :: x != k ==> (x in states <==> x in states0) && (x in states ==> states[x] == states0[x])
    ensures Replaced(q, z, Plus(z, delta), stepped, k, out0, out)
  {
    var global := q.numGroups == 0;
    StateOfTrue(q, states0, z, k);
    GroupSizeSign(q, k, z);
    GroupSizeSign(q, k, Plus(z, delta));
    var g := StateOf(q, states0, k);
    var hadRow := if global then stepped else g.rowWeight > 0;
    var mid := Retract(q, k, g, z, stepped, hadRow, out0);
    g := ApplyGroup(q, k, g, z, delta, rows);
    out := Emit(q, k, g, Plus(z, delta), global || g.rowWeight > 0, mid);
    states := if !global && g.rowWeight <= 0 then states0 - {k} else states0[k := g];
  }

  // ---- the step ----

  // Groups in `done` describe the new input, the others the old one.
  ghost predicate HalfStepped(q: Query, z: ZSet<Row>, z': ZSet<Row>, stepped: bool, done: set<Row>, states: States, out: ZSet<Row>) {
    && (forall k {:trigger StateTrue(q, states, z, k)} {:trigger StateTrue(q, states, z', k)} ::
          StateTrue(q, states, if k in done then z' else z, k))
    && forall o {:trigger W(out, o)} ::
         W(out, o) == if |o| >= q.numGroups && o[..q.numGroups] in done
                      then SqlWeight(q, z', true, o) - SqlWeight(q, z, stepped, o) else 0
  }

  lemma GroupStepped(q: Query, z: ZSet<Row>, z': ZSet<Row>, stepped: bool, done: set<Row>, states0: States, out0: ZSet<Row>,
                     k: Row, states: States, out: ZSet<Row>)
    requires HalfStepped(q, z, z', stepped, done, states0, out0) && k !in done && |k| == q.numGroups
    requires StateTrue(q, states, z', k)
    requires forall x :: x != k ==> (x in states <==> x in states0) && (x in states ==> states[x] == states0[x])
    requires Replaced(q, z, z', stepped, k, out0, out)
    ensures HalfStepped(q, z, z', stepped, done + {k}, states, out)
  {
    forall x ensures StateTrue(q, states, if x in done + {k} then z' else z, x) {
      if x != k {
        assert StateTrue(q, states0, if x in done then z' else z, x);
      }
    }
  }

  // Groups the batch does not touch are described by both inputs.
  lemma UntouchedGroup(q: Query, z: ZSet<Row>, delta: ZSet<Row>, states: States, k: Row)
    requires NonNeg(z) && NonNeg(Plus(z, delta)) && StateTrue(q, states, z, k)
    requires forall r :: r in delta ==> q.key(r) != k
    ensures StateTrue(q, states, Plus(z, delta), k)
    ensures SameOnGroup(q, k, z, Plus(z, delta))
  {
    forall r | q.key(r) == k ensures W(z, r) == W(Plus(z, delta), r) {
      assert W(delta, r) == 0;
    }
    MassAgrees(z, Plus(z, delta), InGroup(q, k));
    if k in states {
      GroupAgrees(q, k, states[k], z, Plus(z, delta));
    }
  }

  lemma UntouchedWeight(q: Query, z: ZSet<Row>, delta: ZSet<Row>, states: States, k: Row, o: Row, stepped: bool)
    requires NonNeg(z) && NonNeg(Plus(z, delta)) && StateTrue(q, states, z, k)
    requires forall r :: r in delta ==> q.key(r) != k
    requires |k| == q.numGroups && OfGroup(q, k, o) && (q.numGroups == 0 ==> stepped)
    ensures SqlWeight(q, Plus(z, delta), true, o) == SqlWeight(q, z, stepped, o)
  {
    UntouchedGroup(q, z, delta, states, k);
    MassAgrees(z, Plus(z, delta), InGroup(q, k));
    SqlRowAgrees(q, k, z, Plus(z, delta), o);
  }

  lemma SqlParts(q: Query, a: AggSpec, k: Row, y: ZSet<Row>, z: ZSet<Row>)
    requires SameOnGroup(q, k, y, z) && NonNeg(y) && NonNeg(z)
    ensures SqlCount(q, a, k, y) == SqlCount(q, a, k, z) && SqlSum(q, a, k, y) == SqlSum(q, a, k, z)
    ensures Distinct(q, a, k, y) == Distinct(q, a, k, z)
  {
    MassAgrees(y, z, Seen(q, a, k));
    MassAgrees(y, z, Valued(q, a, k));
    SumAgrees(q, a, k, y, z);
    DistinctAgrees(q, a, k, y, z);
  }

  lemma SqlValueAgrees(q: Query, a: AggSpec, k: Row, y: ZSet<Row>, z: ZSet<Row>, v: Value)
    requires SqlCount(q, a, k, y) == SqlCount(q, a, k, z) && SqlSum(q, a, k, y) == SqlSum(q, a, k, z)
    requires Distinct(q, a, k, y) == Distinct(q, a, k, z)
    ensures SqlValue(q, a, k, y, v) <==> SqlValue(q, a, k, z, v)
  {
  }

  lemma SqlRowAgrees(q: Query, k: Row, y: ZSet<Row>, z: ZSet<Row>, o: Row)
    requires SameOnGroup(q, k, y, z) && NonNeg(y) && NonNeg(z)
    ensures SqlRow(q, k, y, o) <==> SqlRow(q, k, z, o)
  {
    if |o| == |k| + |q.aggs| {
      forall i | 0 <= i < |q.aggs|
        ensures SqlValue(q, q.aggs[i], k, y, o[|k| + i]) <==> SqlValue(q, q.aggs[i], k, z, o[|k| + i])
      {
        SqlParts(q, q.aggs[i], k, y, z);
        SqlValueAgrees(q, q.aggs[i], k, y, z, o[|k| + i]);
      }
    }
  }

  lemma KeyOfBucket(q: Query, delta: ZSet<Row>, buckets: map<Row, set<Row>>, k: Row)
    requires KeyWidth(q) && Bucketed(q, delta.Keys, buckets) && k in buckets
    ensures |k| == q.numGroups
    ensures forall r :: r in buckets[k] <==> r in delta && q.key(r) == k
  {
    var r :| r in buckets[k];
    assert q.key(r) == k;
  }

  method StepGroup(q: Query, states0: States, stepped: bool, ghost z: ZSet<Row>, delta: ZSet<Row>, ghost done: set<Row>,
                   k: Row, rows: set<Row>, out0: ZSet<Row>)
    returns (states: States, out: ZSet<Row>)
    requires NonNeg(z) && NonNeg(Plus(z, delta)) && |k| == q.numGroups && k !in done
    requires HalfStepped(q, z, Plus(z, delta), stepped, done, states0, out0)
    requires forall r :: r in rows <==> r in delta && q.key(r) == k
    ensures HalfStepped(q, z, Plus(z, delta), stepped, done + {k}, states, out)
  {
    assert StateTrue(q, states0, if k in done then Plus(z, delta) else z, k);
    states, out := ProcessGroup(q, states0, stepped, z, delta, k, rows, out0);
    GroupStepped(q, z, Plus(z, delta), stepped, done, states0, out0, k, states, out);
  }

  // step() on a non-empty batch.
  method StepBatch(q: Query, states0: States, stepped: bool, ghost z: ZSet<Row>, delta: ZSet<Row>)
    returns (states: States, out: ZSet<Row>)
    requires KeyWidth(q) && NonNeg(z) && NonNeg(Plus(z, delta)) && forall k :: StateTrue(q, states0, z, k)
    requires delta != map[]
    ensures forall k :: StateTrue(q, states, Plus(z, delta), k)
    ensures forall o {:trigger W(out, o)} :: W(out, o) == SqlWeight(q, Plus(z, delta), true, o) - SqlWeight(q, z, stepped, o)
  {
    var buckets := Buckets(q, delta);
    states, out := states0, map[];
    var todo := buckets.Keys;
    ghost var done: set<Row> := {};
    while todo != {}
      invariant done + todo == buckets.Keys && done !! todo
      invariant HalfStepped(q, z, Plus(z, delta), stepped, done, states, out)
      decreases todo
    {
      var k :| k in todo;
      KeyOfBucket(q, delta, buckets, k);
      states, out := StepGroup(q, states, stepped, z, delta, done, k, buckets[k], out);
      todo, done := todo - {k}, done + {k};
    }
    assert done == buckets.Keys;
    BatchDone(q, z, delta, stepped, buckets, states0, states, out);
  }

  lemma BatchDone(q: Query, z: ZSet<Row>, delta: ZSet<Row>, stepped: bool, buckets: map<Row, set<Row>>, states0: States,
                  states: States, out: ZSet<Row>)
    requires KeyWidth(q) && NonNeg(z) && NonNeg(Plus(z, delta)) && forall k :: StateTrue(q, states0, z, k)
    requires delta != map[] && Bucketed(q, delta.Keys, buckets)
    requires HalfStepped(q, z, Plus(z, delta), stepped, buckets.Keys, states, out)
    ensures forall k :: StateTrue(q, states, Plus(z, delta), k)
    ensures forall o {:trigger W(out, o)} :: W(out, o) == SqlWeight(q, Plus(z, delta), true, o) - SqlWeight(q, z, stepped, o)
  {
    var z' := Plus(z, delta);
    forall k ensures StateTrue(q, states, z', k) {
      assert StateTrue(q, states, if k in buckets.Keys then z' else z, k);
      if k !in buckets {
        UntouchedGroup(q, z, delta, states, k);
      }
    }
    var r :| r in delta;
    assert q.numGroups == 0 ==> q.key(r) == [] && [] in buckets;
    forall o ensures W(out, o) == SqlWeight(q, z', true, o) - SqlWeight(q, z, stepped, o) {
      if |o| >= q.numGroups && o[..q.numGroups] !in buckets {
        var k := o[..q.numGroups];
        assert q.numGroups == 0 ==> k == [];
        UntouchedWeight(q, z, delta, states0, k, o, stepped);
      }
    }
  }

  // step() on an empty batch: only a global aggregate that has never stepped
  // emits its one row.
  method StepEmpty(q: Query, states: States, stepped: bool, ghost z: ZSet<Row>) returns (out: ZSet<Row>)
    requires NonNeg(z) && forall k :: StateTrue(q, states, z, k)
    ensures forall o {:trigger W(out, o)} :: W(out, o) == SqlWeight(q, z, true, o) - SqlWeight(q, z, stepped, o)
  {
    out := map[];
    if q.numGroups == 0 && !stepped {
      assert StateTrue(q, states, z, []);
      StateOfTrue(q, states, z, []);
      out := Emit(q, [], StateOf(q, states, []), z, true, out);
      assert forall o: Row :: o[..0] == [];
    }
  }

  // The node over a run of batches: the sum of what it has emitted is the
  // grouped table of its integrated input.
  class PlanAggregateNode {
    const q: Query
    var states: States
    var globalEmitted: bool
    var output: ZSet<Row>
    ghost var z: ZSet<Row>
    ghost var emitted: ZSet<Row>

    ghost predicate Valid()
      reads this
    {
      && KeyWidth(q) && NonNeg(z) && Normal(z)
      && (forall k {:trigger StateTrue(q, states, z, k)} :: StateTrue(q, states, z, k))
      && forall o {:trigger W(emitted, o)} :: W(emitted, o) == SqlWeight(q, z, globalEmitted, o)
    }

    constructor (q: Query)
      requires KeyWidth(q)
      ensures Valid() && this.q == q && z == map[] && !globalEmitted
    {
      this.q := q;
      states, globalEmitted, output, z, emitted := map[], false, map[], map[], map[];
    }

    method Step(delta: ZSet<Row>)
      requires Valid() && NonNeg(Plus(z, delta))
      modifies this
      ensures Valid() && globalEmitted == (old(globalEmitted) || q.numGroups == 0)
      ensures z == if delta == map[] then old(z) else Plus(old(z), delta)
      ensures emitted == Plus(old(emitted), output)
      ensures forall o :: W(output, o) == SqlWeight(q, z, true, o) - SqlWeight(q, old(z), old(globalEmitted), o)
    {
      if delta == map[] {
        output := StepEmpty(q, states, globalEmitted, z);
      } else {
        states, output := StepBatch(q, states, globalEmitted, z, delta);
        z := Plus(z, delta);
      }
      globalEmitted := globalEmitted || q.numGroups == 0;
      emitted := Plus(emitted, output);
    }
  }
}
