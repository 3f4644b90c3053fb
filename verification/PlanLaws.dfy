// What the operators of a plan mean, written out row by row, and that a join
// means what its node computes (include/dbsp_plan_ir.hpp, include/dbsp_plan_join.hpp).
module PlanLaws {
  import opened ZSets
  import opened Rows
  import opened PlanSemantics
  import JoinSemantics
  import JoinNode
  import JoinLaws

  // ---- WHERE and SELECT ----

  // Neither NULL nor zero.
  predicate Holds(e: Expr, row: Row) {
    Eval(e, row) != Null && Eval(e, row) != Val(0)
  }

  // Exactly the rows for which every predicate holds are kept, all their
  // copies.
  lemma {:induction false} FilterKeeps(es: seq<Expr>, rows: seq<Row>, r: Row)
    ensures multiset(Keep(es, rows))[r] == if forall i :: 0 <= i < |es| ==> Holds(es[i], r) then multiset(rows)[r] else 0
  {
    if rows != [] {
      FilterKeeps(es, rows[1..], r);
      assert rows == [rows[0]] + rows[1..];
      PassesIff(es, rows[0]);
    }
  }

  lemma PassesIff(es: seq<Expr>, row: Row)
    ensures Passes(es, row) <==> forall i :: 0 <= i < |es| ==> Holds(es[i], row)
  {
  }

  // Row by row, one value for each expression.
  lemma {:induction false} ProjectsEach(es: seq<Expr>, rows: seq<Row>, i: nat)
    requires i < |rows|
    ensures |Project(es, rows)| == |rows| && |Project(es, rows)[i]| == |es|
    ensures forall k :: 0 <= k < |es| ==> Project(es, rows)[i][k] == Eval(es[k], rows[i])
  {
    EvalAllAt(es, rows[0]);
    if i > 0 {
      ProjectsEach(es, rows[1..], i - 1);
    } else {
      ProjectLength(es, rows);
    }
  }

  lemma {:induction false} ProjectLength(es: seq<Expr>, rows: seq<Row>)
    ensures |Project(es, rows)| == |rows|
  {
    if rows != [] {
      ProjectLength(es, rows[1..]);
    }
  }

  lemma {:induction false} EvalAllAt(es: seq<Expr>, row: Row)
    ensures forall k :: 0 <= k < |es| ==> EvalAll(es, row)[k] == Eval(es[k], row)
  {
    if es != [] {
      EvalAllAt(es[1..], row);
    }
  }

  // ---- JOIN ----

  // The join of a plan and the configuration of its node say the same.
  ghost predicate SameJoin(j: Join, c: JoinSemantics.Config, rs: seq<Row>, R: ZSet<Row>) {
    && j.leftWidth == c.leftWidth && j.rightWidth == c.rightWidth
    && (j.kind.Inner? <==> c.joinType == JoinSemantics.Inner) && (j.kind.Left? <==> c.joinType == JoinSemantics.Left)
    && (j.kind.Right? <==> c.joinType == JoinSemantics.Right) && (j.kind.Full? <==> c.joinType == JoinSemantics.Outer)
    && (forall l, r {:trigger j.on(l, r)} :: j.on(l, r) <==> JoinLaws.Joins(c, l, r))
    && (j.kind.Mark? ==> forall l :: j.kind.mark(l, rs) == JoinLaws.MarkFor(c, l, R))
  }

  // The list and the Z-set hold the same rows.
  ghost predicate Lists(rows: seq<Row>, z: ZSet<Row>) {
    forall x {:trigger W(z, x)} :: W(z, x) == multiset(rows)[x]
  }

  lemma {:induction false} PairsCount(j: Join, l: Row, rs: seq<Row>, o: Row)
    ensures multiset(PlanSemantics.Pairs(j, l, rs))[o]
         == if |l| <= |o| && o[..|l|] == l && j.on(l, o[|l|..]) then multiset(rs)[o[|l|..]] else 0
  {
    if rs != [] {
      PairsCount(j, l, rs[1..], o);
      assert rs == [rs[0]] + rs[1..];
      Split(l, rs[0], o);
    }
  }

  lemma Split(l: Row, r: Row, o: Row)
    ensures l + r == o <==> |l| <= |o| && o[..|l|] == l && o[|l|..] == r
  {
    if |l| <= |o| {
      assert o == o[..|l|] + o[|l|..];
    }
  }

  lemma {:induction false} PairsNone(j: Join, l: Row, rs: seq<Row>)
    ensures PlanSemantics.Pairs(j, l, rs) == [] <==> forall r :: r in multiset(rs) ==> !j.on(l, r)
  {
    if rs != [] {
      PairsNone(j, l, rs[1..]);
      assert rs == [rs[0]] + rs[1..];
    }
  }

  // A left row brings only rows that begin with it.
  lemma OtherRows(j: Join, l: Row, rs: seq<Row>, o: Row)
    requires |l| == j.leftWidth && !(|l| <= |o| && o[..|l|] == l)
    ensures multiset(ForLeftRow(j, l, rs))[o] == 0
  {
    PairsCount(j, l, rs, o);
    Split(l, Nulls(j.rightWidth), o);
    if j.kind.Mark? {
      Split(l, [j.kind.mark(l, rs)], o);
    }
  }

  lemma {:induction false} LeftPartCount(j: Join, ls: seq<Row>, rs: seq<Row>, l: Row, o: Row, k: nat)
    requires Widths(ls, j.leftWidth) && |l| == j.leftWidth <= |o| && o[..|l|] == l
    requires k == multiset(ForLeftRow(j, l, rs))[o]
    ensures multiset(LeftPart(j, ls, rs))[o] == multiset(ls)[l] * k
  {
    if ls != [] {
      LeftPartCount(j, ls[1..], rs, l, o, k);
      LeftPartStep(j, ls, rs, o);
      HeadCount(ls, l);
      if ls[0] == l {
        OneMore(multiset(ls[1..])[l], k);
      } else {
        OtherRows(j, ls[0], rs, o);
      }
    }
  }

  lemma LeftPartStep(j: Join, ls: seq<Row>, rs: seq<Row>, o: Row)
    requires ls != []
    ensures multiset(LeftPart(j, ls, rs))[o] == multiset(ForLeftRow(j, ls[0], rs))[o] + multiset(LeftPart(j, ls[1..], rs))[o]
  {
  }

  lemma HeadCount(ls: seq<Row>, l: Row)
    requires ls != []
    ensures multiset(ls)[l] == multiset(ls[1..])[l] + if ls[0] == l then 1 else 0
  {
    assert ls == [ls[0]] + ls[1..];
  }

  lemma OneMore(n: nat, k: nat)
    ensures (n + 1) * k == k + n * k
  {
  }

  lemma {:induction false} LeftPartWide(j: Join, ls: seq<Row>, rs: seq<Row>, o: Row)
    requires Widths(ls, j.leftWidth) && |o| < j.leftWidth
    ensures multiset(LeftPart(j, ls, rs))[o] == 0
  {
    if ls != [] {
      LeftPartWide(j, ls[1..], rs, o);
      OtherRows(j, ls[0], rs, o);
    }
  }

  lemma {:induction false} RightPadsCount(j: Join, ls: seq<Row>, rs: seq<Row>, o: Row)
    ensures multiset(RightPads(j, ls, rs))[o]
         == if j.leftWidth <= |o| && o[..j.leftWidth] == Nulls(j.leftWidth) && Unmatched(j, ls, o[j.leftWidth..])
            then multiset(rs)[o[j.leftWidth..]] else 0
  {
    if rs != [] {
      RightPadsCount(j, ls, rs[1..], o);
      assert rs == [rs[0]] + rs[1..];
      Split(Nulls(j.leftWidth), rs[0], o);
    }
  }

  // ---- the rows of a join are the node's table ----

  // How often one copy of the left row l brings o.
  lemma ForLeftRowCount(j: Join, c: JoinSemantics.Config, l: Row, rs: seq<Row>, R: ZSet<Row>, o: Row)
    requires SameJoin(j, c, rs, R) && Lists(rs, R) && !j.kind.Mark? && |l| == j.leftWidth <= |o| && o[..|l|] == l
    ensures multiset(ForLeftRow(j, l, rs))[o]
         == (if JoinLaws.Joins(c, l, o[|l|..]) then W(R, o[|l|..]) else 0)
            + (if (j.kind.Left? || j.kind.Full?) && JoinLaws.Alone(c, true, l, R) && JoinLaws.AllNull(o[|l|..], c.rightWidth)
               then 1 else 0)
  {
    PairsCount(j, l, rs, o);
    PairsNone(j, l, rs);
    Split(l, Nulls(j.rightWidth), o);
    JoinLaws.NullsIff(o[|l|..], c.rightWidth);
    NoneIsAlone(j, c, l, rs, R);
    if JoinLaws.Alone(c, true, l, R) {
      assert !(W(R, o[|l|..]) > 0 && JoinLaws.Joins(c, l, o[|l|..]));
    }
  }

  lemma NoneIsAlone(j: Join, c: JoinSemantics.Config, l: Row, rs: seq<Row>, R: ZSet<Row>)
    requires SameJoin(j, c, rs, R) && Lists(rs, R)
    ensures JoinLaws.Alone(c, true, l, R) <==> forall r :: r in multiset(rs) ==> !j.on(l, r)
  {
    assert forall r :: r in multiset(rs) <==> W(R, r) > 0;
    forall r ensures j.on(l, r) <==> JoinLaws.Joins(c, l, r) {
    }
  }

  lemma UnmatchedIsAlone(j: Join, c: JoinSemantics.Config, ls: seq<Row>, L: ZSet<Row>, rs: seq<Row>, R: ZSet<Row>, r: Row)
    requires SameJoin(j, c, rs, R) && Lists(ls, L)
    ensures JoinLaws.Alone(c, false, r, L) <==> Unmatched(j, ls, r)
  {
    assert forall l :: l in ls <==> l in multiset(ls);
    assert forall l :: l in multiset(ls) <==> W(L, l) > 0;
    forall l ensures j.on(l, r) <==> JoinLaws.Joins(c, l, r) {
    }
  }

  lemma LeftCount(j: Join, c: JoinSemantics.Config, ls: seq<Row>, rs: seq<Row>, L: ZSet<Row>, R: ZSet<Row>, l: Row, o: Row)
    requires SameJoin(j, c, rs, R) && Lists(ls, L) && Lists(rs, R) && Widths(ls, j.leftWidth) && !j.kind.Mark?
    requires |l| == j.leftWidth <= |o| && o[..|l|] == l
    ensures multiset(LeftPart(j, ls, rs))[o]
         == JoinLaws.Pairs(c, L, R, o) + if j.kind.Left? || j.kind.Full? then JoinLaws.LeftOver(c, L, R, o) else 0
  {
    var k := multiset(ForLeftRow(j, l, rs))[o];
    ForLeftRowCount(j, c, l, rs, R, o);
    LeftPartCount(j, ls, rs, l, o, k);
    var pair := if JoinLaws.Joins(c, l, o[|l|..]) then W(R, o[|l|..]) else 0;
    Times(W(L, l), pair, k - pair);
  }

  lemma Times(n: int, a: int, b: int)
    ensures n * (a + b) == n * a + n * b && n * 0 == 0 && n * 1 == n
  {
  }

  lemma RightCount(j: Join, c: JoinSemantics.Config, ls: seq<Row>, rs: seq<Row>, L: ZSet<Row>, R: ZSet<Row>, o: Row)
    requires SameJoin(j, c, rs, R) && Lists(ls, L) && Lists(rs, R) && j.leftWidth <= |o|
    ensures multiset(RightPads(j, ls, rs))[o] == JoinLaws.RightOver(c, L, R, o)
  {
    RightPadsCount(j, ls, rs, o);
    UnmatchedIsAlone(j, c, ls, L, rs, R, o[j.leftWidth..]);
    JoinLaws.NullsIff(o[..j.leftWidth], c.leftWidth);
  }

  lemma MarkedCount(j: Join, c: JoinSemantics.Config, ls: seq<Row>, rs: seq<Row>, L: ZSet<Row>, R: ZSet<Row>, o: Row)
    requires SameJoin(j, c, rs, R) && Lists(ls, L) && Widths(ls, j.leftWidth) && j.kind.Mark? && j.leftWidth <= |o|
    ensures multiset(LeftPart(j, ls, rs))[o] == JoinLaws.Table(c, L, R, o)
  {
    var l := o[..j.leftWidth];
    var k := multiset(ForLeftRow(j, l, rs))[o];
    LeftPartCount(j, ls, rs, l, o, k);
    Split(l, [j.kind.mark(l, rs)], o);
    if |o| == j.leftWidth + 1 {
      assert o[..|o| - 1] == l && o[|l|..] == [o[|o| - 1]];
      OfOtherWidth(j, ls, L, l);
      CopiesOrNone(multiset(ls)[l], k);
    } else if o != [] {
      OfOtherWidth(j, ls, L, o[..|o| - 1]);
    }
  }

  lemma CopiesOrNone(n: nat, k: nat)
    requires k <= 1
    ensures n * k == if k == 1 then n else 0
  {
  }

  lemma OfOtherWidth(j: Join, ls: seq<Row>, L: ZSet<Row>, l: Row)
    requires Lists(ls, L) && Widths(ls, j.leftWidth)
    ensures W(L, l) >= 0 && (|l| != j.leftWidth ==> W(L, l) == 0)
  {
    assert l in ls <==> l in multiset(ls);
  }

  // The rows that a plan's join stands for are, with their numbers of copies,
  // the table its node keeps.
  lemma JoinIsTable(j: Join, c: JoinSemantics.Config, ls: seq<Row>, rs: seq<Row>, L: ZSet<Row>, R: ZSet<Row>, o: Row)
    requires SameJoin(j, c, rs, R) && Lists(ls, L) && Lists(rs, R) && Widths(ls, j.leftWidth)
    ensures multiset(JoinRows(j, ls, rs))[o] == JoinLaws.Table(c, L, R, o)
  {
    JoinRowsCount(j, ls, rs, o);
    if |o| < j.leftWidth {
      TooShort(j, c, ls, rs, L, R, o);
    } else if j.kind.Mark? {
      MarkedCount(j, c, ls, rs, L, R, o);
    } else {
      LeftCount(j, c, ls, rs, L, R, o[..j.leftWidth], o);
      RightCount(j, c, ls, rs, L, R, o);
    }
  }

  lemma JoinRowsCount(j: Join, ls: seq<Row>, rs: seq<Row>, o: Row)
    ensures multiset(JoinRows(j, ls, rs))[o]
         == multiset(LeftPart(j, ls, rs))[o] + if j.kind.Right? || j.kind.Full? then multiset(RightPads(j, ls, rs))[o] else 0
  {
  }

  lemma TooShort(j: Join, c: JoinSemantics.Config, ls: seq<Row>, rs: seq<Row>, L: ZSet<Row>, R: ZSet<Row>, o: Row)
    requires SameJoin(j, c, rs, R) && Lists(ls, L) && Widths(ls, j.leftWidth) && |o| < j.leftWidth
    ensures multiset(LeftPart(j, ls, rs))[o] == multiset(RightPads(j, ls, rs))[o] == JoinLaws.Table(c, L, R, o) == 0
  {
    LeftPartWide(j, ls, rs, o);
    RightPadsCount(j, ls, rs, o);
    if o != [] {
      OfOtherWidth(j, ls, L, o[..|o| - 1]);
    }
  }

  // So a node that left nothing out has emitted what the plan asks for.
  lemma NodeEmitsPlan(node: JoinNode.PlanJoinNode, j: Join, ls: seq<Row>, rs: seq<Row>)
    requires node.Valid() && JoinNode.Zero(node.missing)
    requires SameJoin(j, node.c, rs, node.R) && Lists(ls, node.L) && Lists(rs, node.R) && Widths(ls, j.leftWidth)
    ensures Lists(JoinRows(j, ls, rs), node.emitted)
  {
    JoinLaws.EmittedIsTable(node);
    forall o ensures W(node.emitted, o) == multiset(JoinRows(j, ls, rs))[o] {
      JoinIsTable(j, node.c, ls, rs, node.L, node.R, o);
    }
  }
}
