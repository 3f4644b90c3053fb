// The circuit-IR optimizer: rewriting passes over the translated plan, and
// when they keep its meaning (include/dbsp_plan_ir.hpp).
module PlanSemantics {
  import opened Rows

  // A bound expression: column references below arbitrary operators.
  datatype Expr = Ref(idx: nat) | Op(f: seq<Value> -> Value, args: seq<Expr>)

  function Column(row: Row, i: nat): Value {
    if i < |row| then row[i] else Null
  }

  function Eval(e: Expr, row: Row): Value {
    match e
    case Ref(i) => Column(row, i)
    case Op(f, args) => f(EvalAll(args, row))
  }

  function EvalAll(es: seq<Expr>, row: Row): (r: seq<Value>)
    ensures |r| == |es|
  {
    if es == [] then [] else [Eval(es[0], row)] + EvalAll(es[1..], row)
  }

  // WHERE keeps a row only when every predicate is true.
  predicate Passes(es: seq<Expr>, row: Row) {
    forall i :: 0 <= i < |es| ==> Eval(es[i], row).Val? && Eval(es[i], row).v != 0
  }

  datatype JoinKind = Inner | Left | Right | Full | Mark(mark: (Row, seq<Row>) -> Value)

  datatype Join = Join(kind: JoinKind, leftWidth: nat, rightWidth: nat, on: (Row, Row) -> bool)

  datatype Plan =
    | Source(table: string)
    | MapCols(idxs: seq<nat>, arity: nat, child: Plan)
    | Filter(exprs: seq<Expr>, child: Plan)
    | MapExpr(exprs: seq<Expr>, child: Plan)
    | FilterMap(filters: seq<Expr>, exprs: seq<Expr>, child: Plan)
    | JoinOp(join: Join, left: Plan, right: Plan)
    | Other(op: seq<seq<Row>> -> seq<Row>, children: seq<Plan>)

  // ---- meaning, as lists of rows ----

  function Keep(es: seq<Expr>, rows: seq<Row>): seq<Row> {
    if rows == [] then []
    else if Passes(es, rows[0]) then [rows[0]] + Keep(es, rows[1..])
    else Keep(es, rows[1..])
  }

  function Project(es: seq<Expr>, rows: seq<Row>): seq<Row> {
    if rows == [] then [] else [EvalAll(es, rows[0])] + Project(es, rows[1..])
  }

  // A column the row does not have becomes NULL.
  function Select(idxs: seq<nat>, row: Row): (r: Row)
    ensures |r| == |idxs| && forall i :: 0 <= i < |idxs| ==> r[i] == Column(row, idxs[i])
  {
    seq(|idxs|, i requires 0 <= i < |idxs| => Column(row, idxs[i]))
  }

  function SelectAll(idxs: seq<nat>, rows: seq<Row>): seq<Row> {
    if rows == [] then [] else [Select(idxs, rows[0])] + SelectAll(idxs, rows[1..])
  }

  // l joined with each of its matches.
  function Pairs(j: Join, l: Row, rs: seq<Row>): seq<Row> {
    if rs == [] then []
    else if j.on(l, rs[0]) then [l + rs[0]] + Pairs(j, l, rs[1..])
    else Pairs(j, l, rs[1..])
  }

  function ForLeftRow(j: Join, l: Row, rs: seq<Row>): seq<Row> {
    match j.kind
    case Mark(mark) => [l + [mark(l, rs)]]
    case _ =>
      if Pairs(j, l, rs) == [] && (j.kind.Left? || j.kind.Full?) then [l + Nulls(j.rightWidth)] else Pairs(j, l, rs)
  }

  function LeftPart(j: Join, ls: seq<Row>, rs: seq<Row>): seq<Row> {
    if ls == [] then [] else ForLeftRow(j, ls[0], rs) + LeftPart(j, ls[1..], rs)
  }

  predicate Unmatched(j: Join, ls: seq<Row>, r: Row) {
    forall l :: l in ls ==> !j.on(l, r)
  }

  function RightPads(j: Join, ls: seq<Row>, rs: seq<Row>): seq<Row> {
    if rs == [] then []
    else if Unmatched(j, ls, rs[0]) then [Nulls(j.leftWidth) + rs[0]] + RightPads(j, ls, rs[1..])
    else RightPads(j, ls, rs[1..])
  }

  function JoinRows(j: Join, ls: seq<Row>, rs: seq<Row>): seq<Row> {
    LeftPart(j, ls, rs) + if j.kind.Right? || j.kind.Full? then RightPads(j, ls, rs) else []
  }

  function Meaning(p: Plan, db: string -> seq<Row>): seq<Row> {
    match p
    case Source(t) => db(t)
    case MapCols(idxs, _, c) => SelectAll(idxs, Meaning(c, db))
    case Filter(es, c) => Keep(es, Meaning(c, db))
    case MapExpr(es, c) => Project(es, Meaning(c, db))
    case FilterMap(fs, es, c) => Project(es, Keep(fs, Meaning(c, db)))
    case JoinOp(j, l, r) => JoinRows(j, Meaning(l, db), Meaning(r, db))
    case Other(op, cs) => op(Meanings(cs, db))
  }

  function Meanings(ps: seq<Plan>, db: string -> seq<Row>): (r: seq<seq<Row>>)
    ensures |r| == |ps| && forall i :: 0 <= i < |ps| ==> r[i] == Meaning(ps[i], db)
  {
    if ps == [] then [] else [Meaning(ps[0], db)] + Meanings(ps[1..], db)
  }

  predicate Widths(rows: seq<Row>, w: nat) {
    forall row :: row in rows ==> |row| == w
  }

  // Every join's recorded left width is the width of its left rows.
  ghost predicate Typed(p: Plan, db: string -> seq<Row>) {
    match p
    case Source(_) => true
    case MapCols(_, _, c) => Typed(c, db)
    case Filter(_, c) => Typed(c, db)
    case MapExpr(_, c) => Typed(c, db)
    case FilterMap(_, _, c) => Typed(c, db)
    case JoinOp(j, l, r) => Typed(l, db) && Typed(r, db) && Widths(Meaning(l, db), j.leftWidth)
    case Other(_, cs) => forall i :: 0 <= i < |cs| ==> Typed(cs[i], db)
  }

  // ---- column references ----

  function Refs(e: Expr): set<nat> {
    match e
    case Ref(i) => {i}
    case Op(_, args) => RefsAll(args)
  }

  function RefsAll(es: seq<Expr>): (r: set<nat>)
    ensures forall i :: 0 <= i < |es| ==> Refs(es[i]) <= r
  {
    if es == [] then {} else Refs(es[0]) + RefsAll(es[1..])
  }

  // shift_bound_refs: column indices of the right side start at 0 again.
  function Shift(e: Expr, delta: nat): Expr {
    match e
    case Ref(i) => Ref(if i >= delta then i - delta else 0)
    case Op(f, args) => Op(f, ShiftAll(args, delta))
  }

  function ShiftAll(es: seq<Expr>, delta: nat): (r: seq<Expr>)
    ensures |r| == |es| && forall i :: 0 <= i < |es| ==> r[i] == Shift(es[i], delta)
  {
    if es == [] then [] else [Shift(es[0], delta)] + ShiftAll(es[1..], delta)
  }

  // An expression sees only the columns it refers to.
  lemma {:induction false} EvalLocal(e: Expr, a: Row, b: Row)
    requires forall i :: i in Refs(e) ==> Column(a, i) == Column(b, i)
    ensures Eval(e, a) == Eval(e, b)
  {
    if e.Op? {
      EvalAllLocal(e.args, a, b);
    }
  }

  lemma {:induction false} EvalAllLocal(es: seq<Expr>, a: Row, b: Row)
    requires forall i :: i in RefsAll(es) ==> Column(a, i) == Column(b, i)
    ensures EvalAll(es, a) == EvalAll(es, b)
  {
    if es != [] {
      EvalLocal(es[0], a, b);
      EvalAllLocal(es[1..], a, b);
    }
  }

  lemma {:induction false} EvalShift(e: Expr, l: Row, r: Row)
    requires forall i :: i in Refs(e) ==> i >= |l|
    ensures Eval(Shift(e, |l|), r) == Eval(e, l + r)
  {
    match e
    case Ref(i) => assert i in Refs(e);
    case Op(f, args) =>
      assert Refs(e) == RefsAll(args);
      EvalAllShift(args, l, r);
  }

  lemma {:induction false} EvalAllShift(es: seq<Expr>, l: Row, r: Row)
    requires forall i :: i in RefsAll(es) ==> i >= |l|
    ensures EvalAll(ShiftAll(es, |l|), r) == EvalAll(es, l + r)
  {
    if es != [] {
      assert RefsAll(es) == Refs(es[0]) + RefsAll(es[1..]);
      EvalShift(es[0], l, r);
      EvalAllShift(es[1..], l, r);
      assert ShiftAll(es, |l|)[1..] == ShiftAll(es[1..], |l|);
    }
  }
}

// Filtering above and below a join.
module JoinPushdown {
  import opened Rows
  import opened PlanSemantics

  // A predicate's side: all its columns left, all right, or neither.
  predicate LeftOnly(e: Expr, leftWidth: nat) {
    Refs(e) != {} && forall i :: i in Refs(e) ==> i < leftWidth
  }

  predicate RightOnly(e: Expr, leftWidth: nat) {
    Refs(e) != {} && forall i :: i in Refs(e) ==> i >= leftWidth
  }

  // One row at the front of a list.
  lemma Fronts(j: Join, es: seq<Expr>, l: Row, x: Row, rows: seq<Row>, ls: seq<Row>)
    ensures Keep(es, [x] + rows) == if Passes(es, x) then [x] + Keep(es, rows) else Keep(es, rows)
    ensures Pairs(j, l, [x] + rows) == if j.on(l, x) then [l + x] + Pairs(j, l, rows) else Pairs(j, l, rows)
    ensures RightPads(j, ls, [x] + rows)
         == if Unmatched(j, ls, x) then [Nulls(j.leftWidth) + x] + RightPads(j, ls, rows) else RightPads(j, ls, rows)
  {
    assert ([x] + rows)[1..] == rows;
  }

  lemma LeftPartFront(j: Join, x: Row, rows: seq<Row>, rs: seq<Row>)
    ensures LeftPart(j, [x] + rows, rs) == ForLeftRow(j, x, rs) + LeftPart(j, rows, rs)
  {
    assert ([x] + rows)[1..] == rows;
  }

  lemma KeepFront(es: seq<Expr>, x: Row, rows: seq<Row>)
    ensures Keep(es, [x] + rows) == if Passes(es, x) then [x] + Keep(es, rows) else Keep(es, rows)
  {
    assert ([x] + rows)[1..] == rows;
  }

  lemma {:induction false} KeepMembers(es: seq<Expr>, rows: seq<Row>)
    ensures forall row :: row in Keep(es, rows) <==> row in rows && Passes(es, row)
  {
    if rows != [] {
      KeepMembers(es, rows[1..]);
    }
  }

  lemma {:induction false} KeepConcat(es: seq<Expr>, a: seq<Row>, b: seq<Row>)
    ensures Keep(es, a + b) == Keep(es, a) + Keep(es, b)
  {
    if a == [] {
      assert a + b == b;
    } else {
      assert (a + b)[1..] == a[1..] + b;
      KeepConcat(es, a[1..], b);
    }
  }

  lemma {:induction false} KeepTwice(a: seq<Expr>, b: seq<Expr>, both: seq<Expr>, rows: seq<Row>)
    requires forall row :: Passes(both, row) <==> Passes(a, row) && Passes(b, row)
    ensures Keep(both, rows) == Keep(a, Keep(b, rows))
  {
    if rows != [] {
      KeepTwice(a, b, both, rows[1..]);
      KeepFront(a, rows[0], Keep(b, rows[1..]));
    }
  }

  lemma {:induction false} KeepAll(es: seq<Expr>, rows: seq<Row>)
    requires forall row :: row in rows ==> Passes(es, row)
    ensures Keep(es, rows) == rows
  {
    if rows != [] {
      KeepAll(es, rows[1..]);
    }
  }

  lemma {:induction false} KeepNone(es: seq<Expr>, rows: seq<Row>)
    requires forall row :: row in rows ==> !Passes(es, row)
    ensures Keep(es, rows) == []
  {
    if rows != [] {
      KeepNone(es, rows[1..]);
    }
  }

  lemma PassesLeft(es: seq<Expr>, l: Row, r: Row)
    requires forall e :: e in es ==> LeftOnly(e, |l|)
    ensures Passes(es, l + r) <==> Passes(es, l)
  {
    forall i | 0 <= i < |es| ensures Eval(es[i], l + r) == Eval(es[i], l) {
      assert es[i] in es;
      EvalLocal(es[i], l + r, l);
    }
  }

  lemma PassesRight(es: seq<Expr>, l: Row, r: Row)
    requires forall e :: e in es ==> RightOnly(e, |l|)
    ensures Passes(es, l + r) <==> Passes(ShiftAll(es, |l|), r)
  {
    forall i | 0 <= i < |es| ensures Eval(es[i], l + r) == Eval(ShiftAll(es, |l|)[i], r) {
      assert es[i] in es;
      EvalShift(es[i], l, r);
    }
  }

  // ---- left-side predicates ----

  lemma {:induction false} ForLeftRowStarts(j: Join, l: Row, rs: seq<Row>)
    ensures forall row :: row in ForLeftRow(j, l, rs) ==> exists r :: row == l + r
  {
    PairsStart(j, l, rs);
    if j.kind.Mark? {
      assert ForLeftRow(j, l, rs) == [l + [j.kind.mark(l, rs)]];
    }
  }

  lemma {:induction false} PairsStart(j: Join, l: Row, rs: seq<Row>)
    ensures forall row :: row in Pairs(j, l, rs) ==> exists r :: row == l + r
  {
    if rs != [] {
      PairsStart(j, l, rs[1..]);
    }
  }

  lemma ForLeftRowFilters(j: Join, es: seq<Expr>, l: Row, rs: seq<Row>)
    requires |l| == j.leftWidth && forall e :: e in es ==> LeftOnly(e, j.leftWidth)
    ensures Keep(es, ForLeftRow(j, l, rs)) == if Passes(es, l) then ForLeftRow(j, l, rs) else []
  {
    ForLeftRowStarts(j, l, rs);
    forall row | row in ForLeftRow(j, l, rs) ensures Passes(es, row) <==> Passes(es, l) {
      var r :| row == l + r;
      PassesLeft(es, l, r);
    }
    if Passes(es, l) {
      KeepAll(es, ForLeftRow(j, l, rs));
    } else {
      KeepNone(es, ForLeftRow(j, l, rs));
    }
  }

  lemma {:induction false} LeftPartFilters(j: Join, es: seq<Expr>, ls: seq<Row>, rs: seq<Row>)
    requires Widths(ls, j.leftWidth) && forall e :: e in es ==> LeftOnly(e, j.leftWidth)
    ensures Keep(es, LeftPart(j, ls, rs)) == LeftPart(j, Keep(es, ls), rs)
  {
    if ls != [] {
      ForLeftRowFilters(j, es, ls[0], rs);
      KeepConcat(es, ForLeftRow(j, ls[0], rs), LeftPart(j, ls[1..], rs));
      LeftPartFilters(j, es, ls[1..], rs);
      LeftPartFront(j, ls[0], Keep(es, ls[1..]), rs);
      assert [] + LeftPart(j, Keep(es, ls[1..]), rs) == LeftPart(j, Keep(es, ls[1..]), rs);
    }
  }

  // ---- right-side predicates ----

  lemma {:induction false} PairsFilter(j: Join, es: seq<Expr>, l: Row, rs: seq<Row>)
    requires |l| == j.leftWidth && forall e :: e in es ==> RightOnly(e, j.leftWidth)
    ensures Keep(es, Pairs(j, l, rs)) == Pairs(j, l, Keep(ShiftAll(es, j.leftWidth), rs))
  {
    if rs != [] {
      PairsFilter(j, es, l, rs[1..]);
      PassesRight(es, l, rs[0]);
      KeepFront(es, l + rs[0], Pairs(j, l, rs[1..]));
      Fronts(j, es, l, rs[0], Keep(ShiftAll(es, j.leftWidth), rs[1..]), []);
    }
  }

  lemma {:induction false} LeftPartFiltersRight(j: Join, es: seq<Expr>, ls: seq<Row>, rs: seq<Row>)
    requires j.kind.Inner? || j.kind.Right?
    requires Widths(ls, j.leftWidth) && forall e :: e in es ==> RightOnly(e, j.leftWidth)
    ensures Keep(es, LeftPart(j, ls, rs)) == LeftPart(j, ls, Keep(ShiftAll(es, j.leftWidth), rs))
  {
    if ls != [] {
      PairsFilter(j, es, ls[0], rs);
      KeepConcat(es, ForLeftRow(j, ls[0], rs), LeftPart(j, ls[1..], rs));
      LeftPartFiltersRight(j, es, ls[1..], rs);
    }
  }

  lemma {:induction false} RightPadsFilter(j: Join, es: seq<Expr>, ls: seq<Row>, rs: seq<Row>)
    requires forall e :: e in es ==> RightOnly(e, j.leftWidth)
    ensures Keep(es, RightPads(j, ls, rs)) == RightPads(j, ls, Keep(ShiftAll(es, j.leftWidth), rs))
  {
    if rs != [] {
      RightPadsFilter(j, es, ls, rs[1..]);
      PassesRight(es, Nulls(j.leftWidth), rs[0]);
      KeepFront(es, Nulls(j.leftWidth) + rs[0], RightPads(j, ls, rs[1..]));
      Fronts(j, es, rs[0], rs[0], Keep(ShiftAll(es, j.leftWidth), rs[1..]), ls);
    }
  }

  // ---- which sides may be pushed ----

  predicate SideSafe(kind: JoinKind, left: bool) {
    match kind
    case Inner => true
    case Left => left
    case Right => !left
    case Full => false
    case Mark(_) => left
  }

  lemma PushLeft(j: Join, es: seq<Expr>, ls: seq<Row>, rs: seq<Row>)
    requires SideSafe(j.kind, true) && Widths(ls, j.leftWidth) && forall e :: e in es ==> LeftOnly(e, j.leftWidth)
    ensures Keep(es, JoinRows(j, ls, rs)) == JoinRows(j, Keep(es, ls), rs)
  {
    LeftPartFilters(j, es, ls, rs);
    assert JoinRows(j, ls, rs) == LeftPart(j, ls, rs);
    assert JoinRows(j, Keep(es, ls), rs) == LeftPart(j, Keep(es, ls), rs);
  }

  lemma PushRight(j: Join, es: seq<Expr>, ls: seq<Row>, rs: seq<Row>)
    requires SideSafe(j.kind, false) && Widths(ls, j.leftWidth) && forall e :: e in es ==> RightOnly(e, j.leftWidth)
    ensures Keep(es, JoinRows(j, ls, rs)) == JoinRows(j, ls, Keep(ShiftAll(es, j.leftWidth), rs))
  {
    LeftPartFiltersRight(j, es, ls, rs);
    RightPadsFilter(j, es, ls, rs);
    KeepConcat(es, LeftPart(j, ls, rs), if j.kind.Right? then RightPads(j, ls, rs) else []);
  }

  // ---- exactly which sides ----

  ghost predicate OneSided(es: seq<Expr>, leftWidth: nat, left: bool) {
    forall e :: e in es ==> if left then LeftOnly(e, leftWidth) else RightOnly(e, leftWidth)
  }

  function PushedRows(j: Join, es: seq<Expr>, ls: seq<Row>, rs: seq<Row>, left: bool): seq<Row> {
    if left then JoinRows(j, Keep(es, ls), rs) else JoinRows(j, ls, Keep(ShiftAll(es, j.leftWidth), rs))
  }

  // Pushing keeps the meaning of this kind of join for all inputs.
  ghost predicate AlwaysKeeps(kind: JoinKind, left: bool) {
    forall j: Join, es, ls, rs :: j.kind == kind && Widths(ls, j.leftWidth) && OneSided(es, j.leftWidth, left) ==>
      Keep(es, JoinRows(j, ls, rs)) == PushedRows(j, es, ls, rs, left)
  }

  // The join type and the side decide: the condition pushdown_filters does
  // not test.
  lemma SideSafeIff(kind: JoinKind, left: bool)
    ensures SideSafe(kind, left) <==> AlwaysKeeps(kind, left)
  {
    if SideSafe(kind, left) {
      forall j: Join, es, ls, rs | j.kind == kind && Widths(ls, j.leftWidth) && OneSided(es, j.leftWidth, left)
        ensures Keep(es, JoinRows(j, ls, rs)) == PushedRows(j, es, ls, rs, left)
      {
        if left {
          PushLeft(j, es, ls, rs);
        } else {
          PushRight(j, es, ls, rs);
        }
      }
    } else {
      UnsafeSide(kind, left);
    }
  }

  // One row on each side, all pairs match, and a predicate that is never
  // true: above the join nothing is left, below it a pad or a mark is.
  function OneMatch(kind: JoinKind): Join {
    Join(kind, 1, 1, (l, r) => true)
  }

  function Never(left: bool): Expr {
    Op(vs => Null, [Ref(if left then 0 else 1)])
  }

  lemma NeverIsOneSided(left: bool)
    ensures OneSided([Never(left)], 1, left)
  {
    assert [Ref(if left then 0 else 1)][1..] == [];
    assert RefsAll([Ref(if left then 0 else 1)]) == {if left then 0 else 1};
  }

  lemma AboveNothing(j: Join, left: bool, ls: seq<Row>, rs: seq<Row>)
    ensures Keep([Never(left)], JoinRows(j, ls, rs)) == []
  {
    NeverPasses(Never(left), JoinRows(j, ls, rs));
  }

  lemma BelowSomething(kind: JoinKind, left: bool, l: Row, r: Row)
    requires !SideSafe(kind, left)
    ensures PushedRows(OneMatch(kind), [Never(left)], [l], [r], left) != []
  {
    var e := Never(left);
    NeverPasses(e, [l]);
    NeverPasses(Shift(e, 1), [r]);
    assert ShiftAll([e], 1) == [Shift(e, 1)];
    SinglePads(OneMatch(kind), l, r);
  }

  lemma UnsafeSide(kind: JoinKind, left: bool)
    requires !SideSafe(kind, left)
    ensures !AlwaysKeeps(kind, left)
  {
    var j, e, l, r := OneMatch(kind), Never(left), [Val(1)], [Val(2)];
    NeverIsOneSided(left);
    AboveNothing(j, left, [l], [r]);
    BelowSomething(kind, left, l, r);
    assert Widths([l], 1);
    assert Keep([e], JoinRows(j, [l], [r])) != PushedRows(j, [e], [l], [r], left);
  }

  lemma {:induction false} NeverPasses(e: Expr, rows: seq<Row>)
    requires e.Op? && forall vs :: e.f(vs) == Null
    ensures Keep([e], rows) == []
  {
    if rows != [] {
      assert !Passes([e], rows[0]) by { assert Eval([e][0], rows[0]) == Null; }
      NeverPasses(e, rows[1..]);
    }
  }

  lemma SinglePads(j: Join, l: Row, r: Row)
    ensures (j.kind.Left? || j.kind.Full? || j.kind.Mark?) ==> JoinRows(j, [l], []) != []
    ensures (j.kind.Right? || j.kind.Full?) ==> JoinRows(j, [], [r]) != []
  {
    assert [l][1..] == [] && [r][1..] == [];
    assert Pairs(j, l, []) == [];
  }
}

// The passes, and the whole optimizer.
module PlanOptimizer {
  import opened Rows
  import opened PlanSemantics
  import opened JoinPushdown

  // ---- what is left when the passes are done ----

  // The predicate reads both sides of a join, or no column at all.
  ghost predicate Straddles(e: Expr, leftWidth: nat) {
    Refs(e) == {} || exists i, k :: i in Refs(e) && k in Refs(e) && i < leftWidth <= k
  }

  lemma StraddlesIff(e: Expr, leftWidth: nat)
    ensures !LeftOnly(e, leftWidth) && !RightOnly(e, leftWidth) <==> Straddles(e, leftWidth)
  {
  }

  // No filter right above a filter, and right above a join only predicates
  // that belong to neither side.
  ghost predicate RootSettled(p: Plan) {
    p.Filter? ==> !p.child.Filter? && (p.child.JoinOp? ==> forall e :: e in p.exprs ==> Straddles(e, p.child.join.leftWidth))
  }

  ghost predicate Settled(p: Plan) {
    && RootSettled(p)
    && match p
       case Source(_) => true
       case MapCols(_, _, c) => Settled(c)
       case Filter(_, c) => Settled(c)
       case MapExpr(_, c) => Settled(c)
       case FilterMap(_, _, c) => Settled(c)
       case JoinOp(_, l, r) => Settled(l) && Settled(r)
       case Other(_, cs) => forall i :: 0 <= i < |cs| ==> Settled(cs[i])
  }

  // Every column read exists in the selection and, through it, in its source.
  ghost predicate Fits(es: seq<Expr>, idxs: seq<nat>, arity: nat) {
    forall i :: i in RefsAll(es) ==> i < |idxs| && idxs[i] < arity
  }

  // A projection over a column selection it can do without.
  ghost predicate Droppable(p: Plan) {
    && (p.MapExpr? || p.FilterMap?) && p.child.MapCols? && p.child.arity != 0
    && Fits(p.exprs, p.child.idxs, p.child.arity) && (p.FilterMap? ==> Fits(p.filters, p.child.idxs, p.child.arity))
  }

  // The expressions bs read from a row what `above` read from its selected
  // columns.
  ghost predicate ReadsThrough(above: seq<Expr>, bs: seq<Expr>, idxs: seq<nat>) {
    forall row {:trigger EvalAll(bs, row)} :: EvalAll(bs, row) == EvalAll(above, Select(idxs, row))
  }

  // ---- combine_filters ----

  lemma PassesConcat(a: seq<Expr>, b: seq<Expr>, row: Row)
    ensures Passes(a + b, row) <==> Passes(a, row) && Passes(b, row)
  {
    if Passes(a + b, row) {
      forall i | 0 <= i < |a| ensures Eval(a[i], row).Val? && Eval(a[i], row).v != 0 {
        assert (a + b)[i] == a[i];
      }
      forall i | 0 <= i < |b| ensures Eval(b[i], row).Val? && Eval(b[i], row).v != 0 {
        assert (a + b)[|a| + i] == b[i];
      }
    }
  }

  lemma KeepConcatFilters(a: seq<Expr>, b: seq<Expr>, rows: seq<Row>)
    ensures Keep(a + b, rows) == Keep(a, Keep(b, rows))
  {
    forall row ensures Passes(a + b, row) <==> Passes(a, row) && Passes(b, row) {
      PassesConcat(a, b, row);
    }
    KeepTwice(a, b, a + b, rows);
  }

  // Operators other than filters, and whether the root is one: what optimize
  // gets smaller in. Pushing a filter down can make the tree larger.
  function Operators(p: Plan): nat {
    match p
    case Source(_) => 1
    case MapCols(_, _, c) => 1 + Operators(c)
    case Filter(_, c) => Operators(c)
    case MapExpr(_, c) => 1 + Operators(c)
    case FilterMap(_, _, c) => 1 + Operators(c)
    case JoinOp(_, l, r) => 1 + Operators(l) + Operators(r)
    case Other(_, cs) => 1 + OperatorsAll(cs)
  }

  function OperatorsAll(ps: seq<Plan>): (n: nat)
    ensures forall i :: 0 <= i < |ps| ==> Operators(ps[i]) <= n
  {
    if ps == [] then 0 else Operators(ps[0]) + OperatorsAll(ps[1..])
  }

  // The pushes optimize would make are all on safe sides. `es` are the
  // predicates arriving from above; a filter under a projection is fused
  // into it and arrives nowhere.
  ghost predicate Safe(p: Plan, es: seq<Expr>) {
    match p
    case Source(_) => true
    case Filter(fs, c) => Safe(c, es + fs)
    case MapCols(_, _, c) => Safe(c, [])
    case MapExpr(_, c) => SafeBelowMap(c)
    case FilterMap(_, _, c) => Safe(c, [])
    case JoinOp(j, l, r) =>
      && (LeftOnes(es, j.leftWidth) != [] ==> SideSafe(j.kind, true))
      && (RightOnes(es, j.leftWidth) != [] ==> SideSafe(j.kind, false))
      && Safe(l, LeftOnes(es, j.leftWidth)) && Safe(r, ShiftAll(RightOnes(es, j.leftWidth), j.leftWidth))
    case Other(_, cs) => forall i :: 0 <= i < |cs| ==> Safe(cs[i], [])
  }

  ghost predicate SafeBelowMap(p: Plan) {
    match p
    case Filter(_, c) => Safe(c, [])
    case _ => Safe(p, [])
  }

  function LeftOnes(es: seq<Expr>, leftWidth: nat): (r: seq<Expr>)
    ensures forall e :: e in r ==> e in es && LeftOnly(e, leftWidth)
  {
    if es == [] then []
    else LeftOnes(es[..|es| - 1], leftWidth) + if LeftOnly(es[|es| - 1], leftWidth) then [es[|es| - 1]] else []
  }

  function RightOnes(es: seq<Expr>, leftWidth: nat): (r: seq<Expr>)
    ensures forall e :: e in r ==> e in es && RightOnly(e, leftWidth)
  {
    if es == [] then []
    else RightOnes(es[..|es| - 1], leftWidth) + if RightOnly(es[|es| - 1], leftWidth) then [es[|es| - 1]] else []
  }

  // Same answer, and still fit for the passes to come.
  ghost predicate Refines(p: Plan, q: Plan, db: string -> seq<Row>) {
    Meaning(q, db) == Meaning(p, db) && Typed(q, db)
  }

  function FilterChain(p: Plan): nat {
    if p.Filter? then 1 + FilterChain(p.child) else 0
  }

  lemma CombineStep(es: seq<Expr>, fs: seq<Expr>, c: Plan, db: string -> seq<Row>)
    ensures var two, one := Filter(es, Filter(fs, c)), Filter(es + fs, c);
            && Meaning(one, db) == Meaning(two, db) && (Typed(one, db) <==> Typed(two, db))
            && (Safe(one, []) <==> Safe(two, [])) && Operators(one) == Operators(two)
            && FilterChain(one) == FilterChain(two) - 1
  {
    KeepConcatFilters(es, fs, Meaning(c, db));
    assert Meaning(Filter(fs, c), db) == Keep(fs, Meaning(c, db));
    assert ([] + es) + fs == [] + (es + fs);
    assert Safe(Filter(es, Filter(fs, c)), []) <==> Safe(Filter(fs, c), [] + es);
    assert FilterChain(Filter(fs, c)) == 1 + FilterChain(c);
    assert Typed(Filter(fs, c), db) <==> Typed(c, db);
    assert Operators(Filter(fs, c)) == Operators(c);
  }

  // A plan the optimizer keeps the meaning of.
  ghost predicate Good(p: Plan, db: string -> seq<Row>) {
    Typed(p, db) && Safe(p, [])
  }

  method CombineFilters(p: Plan, ghost db: string -> seq<Row>) returns (r: Plan)
    ensures Good(p, db) ==> Refines(p, r, db) && Safe(r, [])
    ensures Operators(r) == Operators(p) && (r.Filter? <==> p.Filter?)
    ensures r.Filter? ==> !r.child.Filter?
    ensures !p.Filter? ==> r == p
  {
    r := p;
    while r.Filter? && r.child.Filter?
      invariant Good(p, db) ==> Refines(p, r, db) && Safe(r, [])
      invariant Operators(r) == Operators(p) && (r.Filter? <==> p.Filter?)
      invariant !p.Filter? ==> r == p
      decreases FilterChain(r)
    {
      CombineStep(r.exprs, r.child.exprs, r.child.child, db);
      assert r == Filter(r.exprs, Filter(r.child.exprs, r.child.child));
      r := Filter(r.exprs + r.child.exprs, r.child.child);
    }
  }

  // ---- pushdown_filters ----

  // Sort the predicates by side.
  method SplitPredicates(es: seq<Expr>, leftWidth: nat) returns (keep: seq<Expr>, left: seq<Expr>, right: seq<Expr>)
    ensures left == LeftOnes(es, leftWidth) && right == ShiftAll(RightOnes(es, leftWidth), leftWidth)
    ensures forall row :: Passes(es, row) <==>
              Passes(keep, row) && Passes(LeftOnes(es, leftWidth), row) && Passes(RightOnes(es, leftWidth), row)
    ensures forall e :: e in keep ==> !LeftOnly(e, leftWidth) && !RightOnly(e, leftWidth)
  {
    keep, left, right := [], [], [];
    for i := 0 to |es|
      invariant left == LeftOnes(es[..i], leftWidth) && right == ShiftAll(RightOnes(es[..i], leftWidth), leftWidth)
      invariant forall row :: Passes(es[..i], row) <==>
                  Passes(keep, row) && Passes(LeftOnes(es[..i], leftWidth), row) && Passes(RightOnes(es[..i], leftWidth), row)
      invariant forall e :: e in keep ==> !LeftOnly(e, leftWidth) && !RightOnly(e, leftWidth)
    {
      assert es[..i + 1] == es[..i] + [es[i]];
      SplitStep(es[..i], es[i], keep, leftWidth);
      if LeftOnly(es[i], leftWidth) {
        left := left + [es[i]];
      } else if RightOnly(es[i], leftWidth) {
        right := right + [Shift(es[i], leftWidth)];
      } else {
        keep := keep + [es[i]];
      }
    }
    assert es[..|es|] == es;
  }

  lemma SplitStep(es: seq<Expr>, e: Expr, keep: seq<Expr>, w: nat)
    requires forall row :: Passes(es, row) <==> Passes(keep, row) && Passes(LeftOnes(es, w), row) && Passes(RightOnes(es, w), row)
    ensures LeftOnes(es + [e], w) == if LeftOnly(e, w) then LeftOnes(es, w) + [e] else LeftOnes(es, w)
    ensures RightOnes(es + [e], w) == if RightOnly(e, w) then RightOnes(es, w) + [e] else RightOnes(es, w)
    ensures ShiftAll(RightOnes(es, w) + [e], w) == ShiftAll(RightOnes(es, w), w) + [Shift(e, w)]
    ensures !(LeftOnly(e, w) && RightOnly(e, w))
    ensures forall row :: Passes(es + [e], row) <==>
              && Passes(if LeftOnly(e, w) || RightOnly(e, w) then keep else keep + [e], row)
              && Passes(LeftOnes(es + [e], w), row) && Passes(RightOnes(es + [e], w), row)
  {
    SplitLists(es, e, w);
    forall row ensures Passes(es + [e], row) <==>
                         && Passes(if LeftOnly(e, w) || RightOnly(e, w) then keep else keep + [e], row)
                         && Passes(LeftOnes(es + [e], w), row) && Passes(RightOnes(es + [e], w), row)
    {
      PassesOneMore(es, e, row);
      PassesOneMore(keep, e, row);
      PassesOneMore(LeftOnes(es, w), e, row);
      PassesOneMore(RightOnes(es, w), e, row);
    }
  }

  lemma SplitLists(es: seq<Expr>, e: Expr, w: nat)
    ensures LeftOnes(es + [e], w) == if LeftOnly(e, w) then LeftOnes(es, w) + [e] else LeftOnes(es, w)
    ensures RightOnes(es + [e], w) == if RightOnly(e, w) then RightOnes(es, w) + [e] else RightOnes(es, w)
    ensures ShiftAll(RightOnes(es, w) + [e], w) == ShiftAll(RightOnes(es, w), w) + [Shift(e, w)]
    ensures !(LeftOnly(e, w) && RightOnly(e, w))
  {
    assert (es + [e])[..|es|] == es;
    assert Refs(e) != {} ==> exists i :: i in Refs(e);
  }

  lemma PassesOneMore(es: seq<Expr>, e: Expr, row: Row)
    ensures Passes(es + [e], row) <==> Passes(es, row) && Passes([e], row)
  {
    PassesConcat(es, [e], row);
  }

  // A filter node, unless there is nothing to filter by.
  function SideFilter(es: seq<Expr>, c: Plan): Plan {
    if es == [] then c else Filter(es, c)
  }

  lemma SideFilterIs(es: seq<Expr>, c: Plan, db: string -> seq<Row>)
    requires Typed(c, db) && Safe(c, es)
    ensures Meaning(SideFilter(es, c), db) == Keep(es, Meaning(c, db))
    ensures Typed(SideFilter(es, c), db) && Safe(SideFilter(es, c), [])
    ensures Operators(SideFilter(es, c)) == Operators(c)
    ensures forall row :: row in Meaning(SideFilter(es, c), db) ==> row in Meaning(c, db)
  {
    assert [] + es == es;
    KeepMembers(es, Meaning(c, db));
    if es == [] {
      KeepAll(es, Meaning(c, db));
    }
  }

  // Filter above a join against the same predicates split over its sides.
  lemma PushedMeaning(es: seq<Expr>, keep: seq<Expr>, j: Join, ls: seq<Row>, rs: seq<Row>)
    requires Widths(ls, j.leftWidth)
    requires LeftOnes(es, j.leftWidth) != [] ==> SideSafe(j.kind, true)
    requires RightOnes(es, j.leftWidth) != [] ==> SideSafe(j.kind, false)
    requires forall row :: Passes(es, row) <==>
               Passes(keep, row) && Passes(LeftOnes(es, j.leftWidth), row) && Passes(RightOnes(es, j.leftWidth), row)
    ensures Keep(es, JoinRows(j, ls, rs))
         == Keep(keep, JoinRows(j, Keep(LeftOnes(es, j.leftWidth), ls), Keep(ShiftAll(RightOnes(es, j.leftWidth), j.leftWidth), rs)))
  {
    var lp, rp := LeftOnes(es, j.leftWidth), RightOnes(es, j.leftWidth);
    var rows := JoinRows(j, ls, rs);
    forall row ensures Passes(rp + lp, row) <==> Passes(rp, row) && Passes(lp, row) {
      PassesConcat(rp, lp, row);
    }
    KeepTwice(keep, rp + lp, es, rows);
    KeepConcatFilters(rp, lp, rows);
    PushOrNothing(lp, j, ls, rs, true);
    KeepMembers(lp, ls);
    PushOrNothing(rp, j, Keep(lp, ls), rs, false);
  }

  lemma PushOrNothing(es: seq<Expr>, j: Join, ls: seq<Row>, rs: seq<Row>, left: bool)
    requires Widths(ls, j.leftWidth) && OneSided(es, j.leftWidth, left) && (es != [] ==> SideSafe(j.kind, left))
    ensures Keep(es, JoinRows(j, ls, rs)) == PushedRows(j, es, ls, rs, left)
  {
    if es == [] {
      KeepAll(es, JoinRows(j, ls, rs));
      KeepAll(es, ls);
      KeepAll(ShiftAll(es, j.leftWidth), rs);
    } else if left {
      PushLeft(j, es, ls, rs);
    } else {
      PushRight(j, es, ls, rs);
    }
  }

  method PushdownFilters(p: Plan, ghost db: string -> seq<Row>) returns (r: Plan)
    requires p.Filter? ==> !p.child.Filter?
    ensures Good(p, db) ==> Refines(p, r, db) && Safe(r, []) && (r.Filter? ==> Safe(r.child, []))
    ensures Operators(r) == Operators(p) && (r.Filter? ==> p.Filter?) && RootSettled(r)
    ensures !p.Filter? ==> r == p
  {
    if !p.Filter? || !p.child.JoinOp? {
      assert p.Filter? && Safe(p, []) ==> Safe(p.child, [] + p.exprs);
      return p;
    }
    var j := p.child.join;
    var keep, left, right := SplitPredicates(p.exprs, j.leftWidth);
    assert [] + p.exprs == p.exprs;
    assert Safe(p, []) ==> Safe(p.child, p.exprs);
    if |left| == 0 && |right| == 0 {
      NothingSorted(p.exprs, j.leftWidth);
      assert ShiftAll(RightOnes(p.exprs, j.leftWidth), j.leftWidth) == [];
      return p;
    }
    r := Rebuild(p.exprs, keep, left, right, j, p.child.left, p.child.right, db);
  }

  lemma {:induction false} NothingSorted(es: seq<Expr>, w: nat)
    requires LeftOnes(es, w) == [] && RightOnes(es, w) == []
    ensures forall e :: e in es ==> Straddles(e, w)
  {
    if es != [] {
      var n := |es| - 1;
      NothingSorted(es[..n], w);
      StraddlesIff(es[n], w);
      assert es == es[..n] + [es[n]];
    }
  }

  lemma {:induction false} NothingToPush(keep: seq<Expr>, w: nat)
    requires forall e :: e in keep ==> !LeftOnly(e, w) && !RightOnly(e, w)
    ensures LeftOnes(keep, w) == [] && RightOnes(keep, w) == []
  {
    if keep != [] {
      NothingToPush(keep[..|keep| - 1], w);
      assert keep[|keep| - 1] in keep;
    }
  }

  lemma RebuiltSafe(keep: seq<Expr>, j: Join, l: Plan, r: Plan)
    requires Safe(l, []) && Safe(r, [])
    requires forall e :: e in keep ==> !LeftOnly(e, j.leftWidth) && !RightOnly(e, j.leftWidth)
    ensures Safe(SideFilter(keep, JoinOp(j, l, r)), []) && Safe(JoinOp(j, l, r), [])
  {
    NothingToPush(keep, j.leftWidth);
    NothingToPush([], j.leftWidth);
    assert [] + keep == keep;
    assert Safe(JoinOp(j, l, r), keep) && Safe(JoinOp(j, l, r), []);
  }

  lemma JoinUnfolds(j: Join, l: Plan, r: Plan, db: string -> seq<Row>)
    ensures Meaning(JoinOp(j, l, r), db) == JoinRows(j, Meaning(l, db), Meaning(r, db))
    ensures Typed(JoinOp(j, l, r), db) <==> Typed(l, db) && Typed(r, db) && Widths(Meaning(l, db), j.leftWidth)
  {
  }

  lemma FilterUnfolds(es: seq<Expr>, c: Plan, db: string -> seq<Row>)
    ensures Meaning(Filter(es, c), db) == Keep(es, Meaning(c, db))
    ensures Typed(Filter(es, c), db) <==> Typed(c, db)
  {
  }

  lemma SideFilterMeaning(es: seq<Expr>, c: Plan, db: string -> seq<Row>)
    ensures Meaning(SideFilter(es, c), db) == Keep(es, Meaning(c, db)) && (Typed(SideFilter(es, c), db) <==> Typed(c, db))
  {
    if es == [] {
      KeepAll(es, Meaning(c, db));
    }
  }

  lemma RebuiltMeaning(es: seq<Expr>, keep: seq<Expr>, j: Join, l: Plan, r: Plan, l': Plan, r': Plan, db: string -> seq<Row>)
    requires Typed(JoinOp(j, l, r), db)
    requires LeftOnes(es, j.leftWidth) != [] ==> SideSafe(j.kind, true)
    requires RightOnes(es, j.leftWidth) != [] ==> SideSafe(j.kind, false)
    requires forall row :: Passes(es, row) <==>
               Passes(keep, row) && Passes(LeftOnes(es, j.leftWidth), row) && Passes(RightOnes(es, j.leftWidth), row)
    requires Typed(l', db) && Meaning(l', db) == Keep(LeftOnes(es, j.leftWidth), Meaning(l, db))
    requires Typed(r', db) && Meaning(r', db) == Keep(ShiftAll(RightOnes(es, j.leftWidth), j.leftWidth), Meaning(r, db))
    ensures Refines(Filter(es, JoinOp(j, l, r)), SideFilter(keep, JoinOp(j, l', r')), db)
  {
    JoinUnfolds(j, l, r, db);
    JoinUnfolds(j, l', r', db);
    KeepMembers(LeftOnes(es, j.leftWidth), Meaning(l, db));
    PushedMeaning(es, keep, j, Meaning(l, db), Meaning(r, db));
    FilterUnfolds(es, JoinOp(j, l, r), db);
    SideFilterMeaning(keep, JoinOp(j, l', r'), db);
  }

  method Rebuild(ghost es: seq<Expr>, keep: seq<Expr>, left: seq<Expr>, right: seq<Expr>, j: Join, l: Plan, r0: Plan,
                 ghost db: string -> seq<Row>)
    returns (r: Plan)
    requires left == LeftOnes(es, j.leftWidth) && right == ShiftAll(RightOnes(es, j.leftWidth), j.leftWidth)
    requires forall row :: Passes(es, row) <==>
               Passes(keep, row) && Passes(LeftOnes(es, j.leftWidth), row) && Passes(RightOnes(es, j.leftWidth), row)
    requires forall e :: e in keep ==> !LeftOnly(e, j.leftWidth) && !RightOnly(e, j.leftWidth)
    ensures Typed(JoinOp(j, l, r0), db) && Safe(JoinOp(j, l, r0), es) ==>
              Refines(Filter(es, JoinOp(j, l, r0)), r, db) && Safe(r, []) && (r.Filter? ==> Safe(r.child, []))
    ensures Operators(r) == Operators(JoinOp(j, l, r0)) && RootSettled(r)
  {
    forall e | e in keep ensures Straddles(e, j.leftWidth) {
      StraddlesIff(e, j.leftWidth);
    }
    r := SideFilter(keep, JoinOp(j, SideFilter(left, l), SideFilter(right, r0)));
    SideFilterSize(left, l);
    SideFilterSize(right, r0);
    if Typed(JoinOp(j, l, r0), db) && Safe(JoinOp(j, l, r0), es) {
      SideFilterIs(left, l, db);
      SideFilterIs(right, r0, db);
      RebuiltMeaning(es, keep, j, l, r0, SideFilter(left, l), SideFilter(right, r0), db);
      RebuiltSafe(keep, j, SideFilter(left, l), SideFilter(right, r0));
    }
  }

  lemma SideFilterSize(es: seq<Expr>, c: Plan)
    ensures Operators(SideFilter(es, c)) == Operators(c)
  {
  }

  // ---- fuse_filter_map ----

  // Every child may be optimized on its own.
  ghost predicate ChildrenSafe(p: Plan) {
    match p
    case Source(_) => true
    case MapCols(_, _, c) => Safe(c, [])
    case Filter(_, c) => Safe(c, [])
    case MapExpr(_, c) => Safe(c, [])
    case FilterMap(_, _, c) => Safe(c, [])
    case JoinOp(_, l, r) => Safe(l, []) && Safe(r, [])
    case Other(_, cs) => forall i :: 0 <= i < |cs| ==> Safe(cs[i], [])
  }

  lemma SafeChildren(p: Plan)
    requires Safe(p, []) && (p.MapExpr? ==> !p.child.Filter?) && (p.Filter? ==> Safe(p.child, []))
    ensures ChildrenSafe(p)
  {
    if p.JoinOp? {
      assert LeftOnes([], p.join.leftWidth) == [] && ShiftAll([], p.join.leftWidth) == [];
    }
  }

  lemma FusedFilter(fs: seq<Expr>, es: seq<Expr>, c: Plan, db: string -> seq<Row>)
    requires Typed(MapExpr(es, Filter(fs, c)), db) && Safe(MapExpr(es, Filter(fs, c)), [])
    ensures Refines(MapExpr(es, Filter(fs, c)), FilterMap(fs, es, c), db) && Safe(c, [])
    ensures Operators(FilterMap(fs, es, c)) == Operators(MapExpr(es, Filter(fs, c)))
  {
    FilterUnfolds(fs, c, db);
    assert SafeBelowMap(Filter(fs, c));
    assert Operators(Filter(fs, c)) == Operators(c);
  }

  method FuseFilterMap(p: Plan, ghost db: string -> seq<Row>) returns (r: Plan)
    ensures Good(p, db) && (p.Filter? ==> Safe(p.child, [])) ==> Refines(p, r, db) && ChildrenSafe(r)
    ensures Operators(r) == Operators(p) && (r.Filter? <==> p.Filter?)
    ensures r == if p.MapExpr? && p.child.Filter? then FilterMap(p.child.exprs, p.exprs, p.child.child) else p
  {
    r := p;
    if p.MapExpr? && p.child.Filter? {
      r := FilterMap(p.child.exprs, p.exprs, p.child.child);
      assert p == MapExpr(p.exprs, Filter(p.child.exprs, p.child.child));
      assert Operators(p.child) == Operators(p.child.child);
      if Good(p, db) {
        FusedFilter(p.child.exprs, p.exprs, p.child.child, db);
      }
    } else if Good(p, db) && (p.Filter? ==> Safe(p.child, [])) {
      SafeChildren(p);
    }
  }

  // ---- fuse_map_cols ----

  // remap_bound_refs: None when a reference leaves the selection or the
  // source row.
  function Remap(e: Expr, idxs: seq<nat>, arity: nat): Option<Expr> {
    match e
    case Ref(i) => if i >= |idxs| || idxs[i] >= arity then None else Some(Ref(idxs[i]))
    case Op(f, args) =>
      match RemapAll(args, idxs, arity)
      case None => None
      case Some(args') => Some(Op(f, args'))
  }

  function RemapAll(es: seq<Expr>, idxs: seq<nat>, arity: nat): Option<seq<Expr>> {
    if es == [] then Some([])
    else
      var first, rest := Remap(es[0], idxs, arity), RemapAll(es[1..], idxs, arity);
      if first.None? || rest.None? then None else Some([first.value] + rest.value)
  }

  // It succeeds exactly when every reference stays within both.
  lemma {:induction false} RemapIff(e: Expr, idxs: seq<nat>, arity: nat)
    ensures Remap(e, idxs, arity).Some? <==> forall i :: i in Refs(e) ==> i < |idxs| && idxs[i] < arity
  {
    match e
    case Ref(i) => assert i in Refs(e);
    case Op(_, args) => RemapAllIff(args, idxs, arity);
  }

  lemma {:induction false} RemapAllIff(es: seq<Expr>, idxs: seq<nat>, arity: nat)
    ensures RemapAll(es, idxs, arity).Some? <==> Fits(es, idxs, arity)
  {
    if es != [] {
      RemapIff(es[0], idxs, arity);
      RemapAllIff(es[1..], idxs, arity);
      assert RefsAll(es) == Refs(es[0]) + RefsAll(es[1..]);
    }
  }

  lemma RemappedReads(es: seq<Expr>, bs: seq<Expr>, idxs: seq<nat>, arity: nat)
    requires RemapAll(es, idxs, arity) == Some(bs)
    ensures ReadsThrough(es, bs, idxs)
  {
    forall row ensures EvalAll(bs, row) == EvalAll(es, Select(idxs, row)) {
      RemapAllReads(es, idxs, arity, row);
    }
  }

  // Reading through the selection is reading the remapped expression.
  lemma {:induction false} RemapReads(e: Expr, idxs: seq<nat>, arity: nat, row: Row)
    requires Remap(e, idxs, arity).Some?
    ensures Eval(Remap(e, idxs, arity).value, row) == Eval(e, Select(idxs, row))
  {
    if e.Op? {
      RemapAllReads(e.args, idxs, arity, row);
    }
  }

  lemma {:induction false} RemapAllReads(es: seq<Expr>, idxs: seq<nat>, arity: nat, row: Row)
    requires RemapAll(es, idxs, arity).Some?
    ensures |RemapAll(es, idxs, arity).value| == |es|
    ensures EvalAll(RemapAll(es, idxs, arity).value, row) == EvalAll(es, Select(idxs, row))
  {
    if es != [] {
      RemapReads(es[0], idxs, arity, row);
      RemapAllReads(es[1..], idxs, arity, row);
      var rest := RemapAll(es[1..], idxs, arity).value;
      assert ([Remap(es[0], idxs, arity).value] + rest)[1..] == rest;
    }
  }

  lemma {:induction false} EvalAllAt(es: seq<Expr>, row: Row, i: nat)
    requires i < |es|
    ensures EvalAll(es, row)[i] == Eval(es[i], row)
  {
    if i > 0 {
      EvalAllAt(es[1..], row, i - 1);
    }
  }

  lemma RemapPasses(es: seq<Expr>, idxs: seq<nat>, arity: nat, row: Row)
    requires RemapAll(es, idxs, arity).Some?
    ensures Passes(RemapAll(es, idxs, arity).value, row) <==> Passes(es, Select(idxs, row))
  {
    var fs := RemapAll(es, idxs, arity).value;
    RemapAllReads(es, idxs, arity, row);
    forall i | 0 <= i < |es| ensures Eval(fs[i], row) == Eval(es[i], Select(idxs, row)) {
      EvalAllAt(fs, row, i);
      EvalAllAt(es, Select(idxs, row), i);
    }
  }

  lemma {:induction false} FusedRows(fs: seq<Expr>, es: seq<Expr>, idxs: seq<nat>, arity: nat, rows: seq<Row>)
    requires RemapAll(fs, idxs, arity).Some? && RemapAll(es, idxs, arity).Some?
    ensures Project(RemapAll(es, idxs, arity).value, Keep(RemapAll(fs, idxs, arity).value, rows))
         == Project(es, Keep(fs, SelectAll(idxs, rows)))
  {
    if rows != [] {
      var fs', es' := RemapAll(fs, idxs, arity).value, RemapAll(es, idxs, arity).value;
      FusedRows(fs, es, idxs, arity, rows[1..]);
      RemapPasses(fs, idxs, arity, rows[0]);
      RemapAllReads(es, idxs, arity, rows[0]);
      KeepFront(fs, Select(idxs, rows[0]), SelectAll(idxs, rows[1..]));
      ProjectFront(es', rows[0], Keep(fs', rows[1..]));
      ProjectFront(es, Select(idxs, rows[0]), Keep(fs, SelectAll(idxs, rows[1..])));
    }
  }

  lemma ProjectFront(es: seq<Expr>, x: Row, rows: seq<Row>)
    ensures Project(es, [x] + rows) == [EvalAll(es, x)] + Project(es, rows)
  {
    assert ([x] + rows)[1..] == rows;
  }

  lemma FusedMapExpr(es: seq<Expr>, es': seq<Expr>, idxs: seq<nat>, arity: nat, c: Plan, db: string -> seq<Row>)
    requires Typed(MapExpr(es, MapCols(idxs, arity, c)), db) && ChildrenSafe(MapExpr(es, MapCols(idxs, arity, c)))
    requires RemapAll(es, idxs, arity) == Some(es')
    ensures Refines(MapExpr(es, MapCols(idxs, arity, c)), MapExpr(es', c), db) && Safe(c, [])
    ensures Operators(MapExpr(es', c)) <= Operators(MapExpr(es, MapCols(idxs, arity, c)))
  {
    var rows := Meaning(c, db);
    MapColsUnfolds(idxs, arity, c, db);
    FusedRows([], es, idxs, arity, rows);
    KeepAll([], rows);
    KeepAll([], SelectAll(idxs, rows));
  }

  lemma FusedFilterMap(fs: seq<Expr>, fs': seq<Expr>, es: seq<Expr>, es': seq<Expr>, idxs: seq<nat>, arity: nat, c: Plan,
                       db: string -> seq<Row>)
    requires Typed(FilterMap(fs, es, MapCols(idxs, arity, c)), db) && ChildrenSafe(FilterMap(fs, es, MapCols(idxs, arity, c)))
    requires RemapAll(es, idxs, arity) == Some(es') && RemapAll(fs, idxs, arity) == Some(fs')
    ensures Refines(FilterMap(fs, es, MapCols(idxs, arity, c)), FilterMap(fs', es', c), db) && Safe(c, [])
    ensures Operators(FilterMap(fs', es', c)) <= Operators(FilterMap(fs, es, MapCols(idxs, arity, c)))
  {
    MapColsUnfolds(idxs, arity, c, db);
    FusedRows(fs, es, idxs, arity, Meaning(c, db));
  }

  lemma MapColsUnfolds(idxs: seq<nat>, arity: nat, c: Plan, db: string -> seq<Row>)
    ensures Meaning(MapCols(idxs, arity, c), db) == SelectAll(idxs, Meaning(c, db))
    ensures Typed(MapCols(idxs, arity, c), db) <==> Typed(c, db)
    ensures Safe(MapCols(idxs, arity, c), []) <==> Safe(c, [])
    ensures Operators(MapCols(idxs, arity, c)) == 1 + Operators(c)
  {
  }

  // Drop a column selection below a projection; leave everything as it is
  // when any expression cannot be remapped, or the source layout is unknown.
  method FuseMapCols(p: Plan, ghost db: string -> seq<Row>) returns (r: Plan)
    ensures Typed(p, db) && ChildrenSafe(p) ==> Refines(p, r, db) && ChildrenSafe(r)
    ensures Operators(r) <= Operators(p)
    ensures !Droppable(p) ==> r == p
    ensures Droppable(p) && p.MapExpr? ==> r.MapExpr?
    ensures Droppable(p) && p.FilterMap? ==> r.FilterMap? && ReadsThrough(p.filters, r.filters, p.child.idxs)
    ensures Droppable(p) ==> r.child == p.child.child && ReadsThrough(p.exprs, r.exprs, p.child.idxs)
  {
    r := p;
    if (p.MapExpr? || p.FilterMap?) && p.child.MapCols? && p.child.arity != 0 {
      var cols := p.child;
      var fs := RemapAll(if p.FilterMap? then p.filters else [], cols.idxs, cols.arity);
      var es := RemapAll(p.exprs, cols.idxs, cols.arity);
      RemapAllIff(p.exprs, cols.idxs, cols.arity);
      RemapAllIff(if p.FilterMap? then p.filters else [], cols.idxs, cols.arity);
      if fs.Some? && es.Some? {
        RemappedReads(p.exprs, es.value, cols.idxs, cols.arity);
        RemappedReads(if p.FilterMap? then p.filters else [], fs.value, cols.idxs, cols.arity);
        if p.FilterMap? {
          if Typed(p, db) && ChildrenSafe(p) {
            FusedFilterMap(p.filters, fs.value, p.exprs, es.value, cols.idxs, cols.arity, cols.child, db);
          }
          MapColsUnfolds(cols.idxs, cols.arity, cols.child, db);
          assert p == FilterMap(p.filters, p.exprs, MapCols(cols.idxs, cols.arity, cols.child));
          r := FilterMap(fs.value, es.value, cols.child);
        } else {
          if Typed(p, db) && ChildrenSafe(p) {
            FusedMapExpr(p.exprs, es.value, cols.idxs, cols.arity, cols.child, db);
          }
          MapColsUnfolds(cols.idxs, cols.arity, cols.child, db);
          assert p == MapExpr(p.exprs, MapCols(cols.idxs, cols.arity, cols.child));
          r := MapExpr(es.value, cols.child);
        }
      }
    }
  }

  // ---- optimize ----

  // Replace the children by plans of the same meaning.
  ghost predicate SameShape(p: Plan, q: Plan, db: string -> seq<Row>) {
    match p
    case Source(_) => q == p
    case MapCols(idxs, n, c) => q.MapCols? && q.idxs == idxs && Meaning(q.child, db) == Meaning(c, db)
    case Filter(es, c) => q.Filter? && q.exprs == es && Meaning(q.child, db) == Meaning(c, db)
    case MapExpr(es, c) => q.MapExpr? && q.exprs == es && Meaning(q.child, db) == Meaning(c, db)
    case FilterMap(fs, es, c) =>
      q.FilterMap? && q.filters == fs && q.exprs == es && Meaning(q.child, db) == Meaning(c, db)
    case JoinOp(j, l, r) =>
      q.JoinOp? && q.join == j && Meaning(q.left, db) == Meaning(l, db) && Meaning(q.right, db) == Meaning(r, db)
    case Other(op, cs) => q.Other? && q.op == op && Meanings(q.children, db) == Meanings(cs, db)
  }

  lemma SameShapeMeaning(p: Plan, q: Plan, db: string -> seq<Row>)
    requires SameShape(p, q, db)
    ensures Meaning(q, db) == Meaning(p, db)
  {
  }

  lemma TypedChildren(p: Plan, db: string -> seq<Row>)
    requires Typed(p, db) && ChildrenSafe(p)
    ensures p.MapCols? || p.Filter? || p.MapExpr? || p.FilterMap? ==> Good(p.child, db)
    ensures p.JoinOp? ==> Good(p.left, db) && Good(p.right, db)
    ensures p.Other? ==> forall i :: 0 <= i < |p.children| ==> Good(p.children[i], db)
  {
  }

  // Terminates on every plan; keeps the meaning of every plan whose pushes
  // are on safe sides; and leaves no filters to combine, no predicate to push
  // and, at the root, no filter or selection to fuse.
  method Optimize(p: Plan, ghost db: string -> seq<Row>) returns (r: Plan)
    ensures Good(p, db) ==> Meaning(r, db) == Meaning(p, db)
    ensures Settled(r)
    ensures p.MapExpr? && p.child.Filter? ==> r.FilterMap?
    ensures Droppable(p) ==> (r.MapExpr? || r.FilterMap?) && ReadsThrough(p.exprs, r.exprs, p.child.idxs)
    ensures !p.Filter? ==> !r.Filter? && (r.JoinOp? ==> p.JoinOp? && r.join == p.join)
    decreases Operators(p), if p.Filter? then 1 else 0, 1
  {
    var q1 := CombineFilters(p, db);
    var q2 := PushdownFilters(q1, db);
    var q3 := FuseFilterMap(q2, db);
    var q4 := FuseMapCols(q3, db);
    r := OptimizeChildren(q4, db);
  }

  ghost predicate SameRoot(p: Plan, q: Plan) {
    match p
    case Source(_) => q == p
    case MapCols(_, _, _) => q.MapCols?
    case Filter(es, _) => q.Filter? && q.exprs == es
    case MapExpr(es, _) => q.MapExpr? && q.exprs == es
    case FilterMap(fs, es, _) => q.FilterMap? && q.filters == fs && q.exprs == es
    case JoinOp(j, _, _) => q.JoinOp? && q.join == j
    case Other(_, _) => q.Other?
  }

  method OptimizeChildren(p: Plan, ghost db: string -> seq<Row>) returns (r: Plan)
    requires RootSettled(p)
    ensures Typed(p, db) && ChildrenSafe(p) ==> Meaning(r, db) == Meaning(p, db)
    ensures Settled(r) && SameRoot(p, r)
    decreases Operators(p), if p.Filter? then 1 else 0, 0
  {
    if Typed(p, db) && ChildrenSafe(p) {
      TypedChildren(p, db);
    }
    match p
    case Source(t) =>
      r := p;
    case MapCols(idxs, n, c) =>
      var c' := Optimize(c, db);
      r := MapCols(idxs, n, c');
    case Filter(es, c) =>
      var c' := Optimize(c, db);
      r := Filter(es, c');
    case MapExpr(es, c) =>
      var c' := Optimize(c, db);
      r := MapExpr(es, c');
    case FilterMap(fs, es, c) =>
      var c' := Optimize(c, db);
      r := FilterMap(fs, es, c');
    case JoinOp(j, l, r0) =>
      var l' := Optimize(l, db);
      var r' := Optimize(r0, db);
      r := JoinOp(j, l', r');
    case Other(op, cs) =>
      var cs' := OptimizeAll(cs, db);
      r := Other(op, cs');
    if Typed(p, db) && ChildrenSafe(p) {
      SameShapeMeaning(p, r, db);
    }
  }

  method OptimizeAll(ps: seq<Plan>, ghost db: string -> seq<Row>) returns (rs: seq<Plan>)
    ensures (forall i :: 0 <= i < |ps| ==> Good(ps[i], db)) ==> Meanings(rs, db) == Meanings(ps, db)
    ensures forall i :: 0 <= i < |rs| ==> Settled(rs[i])
    decreases OperatorsAll(ps), 2, 0
  {
    rs := [];
    for i := 0 to |ps|
      invariant |rs| == i && forall k :: 0 <= k < i ==> Settled(rs[k])
      invariant (forall k :: 0 <= k < |ps| ==> Good(ps[k], db)) ==>
                  forall k :: 0 <= k < i ==> Meaning(rs[k], db) == Meaning(ps[k], db)
    {
      var c := Optimize(ps[i], db);
      rs := rs + [c];
    }
  }

  // A condition that is easy to see: without outer and MARK joins every push
  // is on a safe side.
  ghost predicate InnerOnly(p: Plan) {
    match p
    case Source(_) => true
    case MapCols(_, _, c) => InnerOnly(c)
    case Filter(_, c) => InnerOnly(c)
    case MapExpr(_, c) => InnerOnly(c)
    case FilterMap(_, _, c) => InnerOnly(c)
    case JoinOp(j, l, r) => j.kind.Inner? && InnerOnly(l) && InnerOnly(r)
    case Other(_, cs) => forall i :: 0 <= i < |cs| ==> InnerOnly(cs[i])
  }

  lemma {:induction false} InnerIsSafe(p: Plan, es: seq<Expr>)
    requires InnerOnly(p)
    ensures Safe(p, es)
    decreases p
  {
    match p
    case Source(_) =>
    case MapCols(_, _, c) => InnerIsSafe(c, []);
    case Filter(fs, c) => InnerIsSafe(c, es + fs);
    case MapExpr(_, c) =>
      InnerIsSafe(c, []);
      if c.Filter? {
        InnerIsSafe(c.child, []);
      }
    case FilterMap(_, _, c) => InnerIsSafe(c, []);
    case JoinOp(j, l, r) =>
      InnerIsSafe(l, LeftOnes(es, j.leftWidth));
      InnerIsSafe(r, ShiftAll(RightOnes(es, j.leftWidth), j.leftWidth));
    case Other(_, cs) =>
      forall i | 0 <= i < |cs| ensures Safe(cs[i], []) {
        InnerIsSafe(cs[i], []);
      }
  }
}
