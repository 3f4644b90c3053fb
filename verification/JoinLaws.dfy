// The joined table written out from the rows and the comparisons themselves,
// and that it is the one the node keeps (section 7.5 of ISO/IEC 9075:1992).
module JoinLaws {
  import opened ZSets
  import opened Rows
  import opened JoinSemantics
  import opened JoinStorage
  import opened JoinNode

  // ---- which pairs of rows join ----

  ghost predicate Compares(res: Residual, l: Row, r: Row) {
    exists a: int, b: int :: res.left(l) == Val(a) && res.right(r) == Val(b) && InOrder(res.cmp, a, b)
  }

  // Less on the left is less, and so on.
  ghost predicate InOrder(cmp: Comparison, a: int, b: int) {
    && (cmp == Less ==> a < b) && (cmp == Greater ==> b < a)
    && (cmp == LessEqual ==> a <= b) && (cmp == GreaterEqual ==> b <= a)
    && (cmp == Equal ==> a == b) && (cmp == NotEqual ==> a != b)
  }

  ghost predicate EqualKeys(c: Config, l: Row, r: Row) {
    && |c.leftKeys| == |c.rightKeys|
    && forall i :: 0 <= i < |c.leftKeys| ==>
         c.leftKeys[i](l) == c.rightKeys[i](r) && (c.leftKeys[i](l) == Null ==> c.nullSafe)
  }

  ghost predicate Joins(c: Config, l: Row, r: Row) {
    EqualKeys(c, l, r) && forall i :: 0 <= i < |c.residuals| ==> Compares(c.residuals[i], l, r)
  }

  ghost predicate SomeNull(keys: KeyExprs, row: Row) {
    exists i :: 0 <= i < |keys| && keys[i](row) == Null
  }

  lemma ComparesIff(res: Residual, l: Row, r: Row)
    ensures ResidualPasses(res, l, r) <==> Compares(res, l, r)
  {
    if ResidualPasses(res, l, r) {
      assert InOrder(res.cmp, res.left(l).v, res.right(r).v);
    }
  }

  lemma NullInKey(keys: KeyExprs, row: Row)
    ensures Null in KeyValues(keys, row) <==> SomeNull(keys, row)
  {
    var k := KeyValues(keys, row);
    if i :| 0 <= i < |keys| && keys[i](row) == Null {
      assert k[i] == Null;
    }
  }

  lemma KeysIff(c: Config, l: Row, r: Row)
    ensures KeyOf(c, true, l).Some? && KeyOf(c, true, l) == KeyOf(c, false, r) <==> EqualKeys(c, l, r)
  {
    var kl, kr := KeyValues(c.leftKeys, l), KeyValues(c.rightKeys, r);
    NullInKey(c.leftKeys, l);
    NullInKey(c.rightKeys, r);
    if EqualKeys(c, l, r) {
      assert kl == kr;
    } else if kl == kr {
      forall i | 0 <= i < |c.leftKeys| ensures c.leftKeys[i](l) == c.rightKeys[i](r) {
        assert kl[i] == kr[i];
      }
    }
  }

  lemma JoinsIff(c: Config, l: Row, r: Row)
    ensures Matches(c, l, r) <==> Joins(c, l, r)
  {
    KeysIff(c, l, r);
    forall i | 0 <= i < |c.residuals|
      ensures ResidualPasses(c.residuals[i], l, r) <==> Compares(c.residuals[i], l, r)
    {
      ComparesIff(c.residuals[i], l, r);
    }
  }

  // ---- the joined table ----

  // Rows of the other side that count are those of positive weight.
  ghost predicate Alone(c: Config, left: bool, row: Row, other: ZSet<Row>) {
    forall x :: W(other, x) > 0 ==> if left then !Joins(c, row, x) else !Joins(c, x, row)
  }

  ghost predicate AllNull(s: Row, n: nat) {
    |s| == n && forall i :: 0 <= i < n ==> s[i] == Null
  }

  ghost function Pairs(c: Config, L: ZSet<Row>, R: ZSet<Row>, o: Row): int {
    if |o| >= c.leftWidth && Joins(c, o[..c.leftWidth], o[c.leftWidth..])
    then W(L, o[..c.leftWidth]) * W(R, o[c.leftWidth..]) else 0
  }

  // Left rows without a partner, NULLs in place of the right columns.
  ghost function LeftOver(c: Config, L: ZSet<Row>, R: ZSet<Row>, o: Row): int {
    if |o| >= c.leftWidth && AllNull(o[c.leftWidth..], c.rightWidth)
       && W(L, o[..c.leftWidth]) > 0 && Alone(c, true, o[..c.leftWidth], R)
    then W(L, o[..c.leftWidth]) else 0
  }

  ghost function RightOver(c: Config, L: ZSet<Row>, R: ZSet<Row>, o: Row): int {
    if |o| >= c.leftWidth && AllNull(o[..c.leftWidth], c.leftWidth)
       && W(R, o[c.leftWidth..]) > 0 && Alone(c, false, o[c.leftWidth..], L)
    then W(R, o[c.leftWidth..]) else 0
  }

  ghost predicate NullMark(c: Config, l: Row, R: ZSet<Row>) {
    && !c.nullSafe && (exists r :: W(R, r) > 0)
    && (SomeNull(c.leftKeys, l) || exists r :: W(R, r) > 0 && SomeNull(c.rightKeys, r))
  }

  // 1 with a partner, otherwise NULL or 0.
  ghost function MarkFor(c: Config, l: Row, R: ZSet<Row>): Value {
    if !Alone(c, true, l, R) then Val(1) else if NullMark(c, l, R) then Null else Val(0)
  }

  ghost function Marked(c: Config, L: ZSet<Row>, R: ZSet<Row>, l: Row, mark: Value): int {
    if W(L, l) > 0 && mark == MarkFor(c, l, R) then W(L, l) else 0
  }

  ghost function Table(c: Config, L: ZSet<Row>, R: ZSet<Row>, o: Row): int {
    match c.joinType
    case Inner => Pairs(c, L, R, o)
    case Left => Pairs(c, L, R, o) + LeftOver(c, L, R, o)
    case Right => Pairs(c, L, R, o) + RightOver(c, L, R, o)
    case Outer => Pairs(c, L, R, o) + LeftOver(c, L, R, o) + RightOver(c, L, R, o)
    case Mark => if o == [] then 0 else Marked(c, L, R, o[..|o| - 1], o[|o| - 1])
  }

  lemma AloneIff(c: Config, left: bool, row: Row, other: ZSet<Row>)
    ensures Matched(c, left, row, other) <==> !Alone(c, left, row, other)
  {
    forall x ensures MatchesFrom(c, left, row, x) <==> if left then Joins(c, row, x) else Joins(c, x, row) {
      if left {
        JoinsIff(c, row, x);
      } else {
        JoinsIff(c, x, row);
      }
    }
    assert forall x :: x in other && other[x] > 0 <==> W(other, x) > 0;
  }

  lemma PairsIs(c: Config, L: ZSet<Row>, R: ZSet<Row>, o: Row)
    ensures InnerWeight(c, L, R, o) == Pairs(c, L, R, o)
  {
    if |o| >= c.leftWidth {
      JoinsIff(c, o[..c.leftWidth], o[c.leftWidth..]);
    }
  }

  lemma NullsIff(s: Row, n: nat)
    ensures s == Nulls(n) <==> AllNull(s, n)
  {
  }

  lemma OversAre(c: Config, L: ZSet<Row>, R: ZSet<Row>, o: Row)
    requires !c.joinType.Mark?
    ensures JoinedWeight(c, L, R, o) == Pairs(c, L, R, o)
              + (if c.joinType.Left? || c.joinType.Outer? then LeftOver(c, L, R, o) else 0)
              + (if c.joinType.Right? || c.joinType.Outer? then RightOver(c, L, R, o) else 0)
  {
    PairsIs(c, L, R, o);
    if |o| >= c.leftWidth {
      AloneIff(c, true, o[..c.leftWidth], R);
      AloneIff(c, false, o[c.leftWidth..], L);
      NullsIff(o[c.leftWidth..], c.rightWidth);
      NullsIff(o[..c.leftWidth], c.leftWidth);
    }
  }

  lemma MarksAre(c: Config, L: ZSet<Row>, R: ZSet<Row>, l: Row, mark: Value, o: Row)
    requires o == l + [mark]
    ensures MarkWeight(c, L, R, o) == Marked(c, L, R, l, mark)
  {
    assert o[..|o| - 1] == l;
    AloneIff(c, true, l, R);
    NullMarkIff(c, l, R);
  }

  lemma NullMarkIff(c: Config, l: Row, R: ZSet<Row>)
    ensures NullMark(c, l, R) <==> NonEmpty(R) && (HasNullKey(c, true, l) || SomeNullKey(c, R))
  {
    NullInKey(c.leftKeys, l);
    forall r ensures HasNullKey(c, false, r) <==> !c.nullSafe && SomeNull(c.rightKeys, r)
             ensures r in R && R[r] > 0 <==> W(R, r) > 0
    {
      NullInKey(c.rightKeys, r);
    }
  }

  // What the node is specified by is this table, for every join type, input
  // and output row.
  lemma SpecIsTable(c: Config, L: ZSet<Row>, R: ZSet<Row>, o: Row)
    ensures SpecWeight(c, L, R, o) == Table(c, L, R, o)
  {
    if !c.joinType.Mark? {
      OversAre(c, L, R, o);
    } else if o != [] {
      assert o == o[..|o| - 1] + [o[|o| - 1]];
      MarksAre(c, L, R, o[..|o| - 1], o[|o| - 1], o);
    }
  }

  // Over every run that left nothing out, the node has emitted the table.
  lemma EmittedIsTable(node: PlanJoinNode)
    requires node.Valid() && Zero(node.missing)
    ensures forall o {:trigger W(node.emitted, o)} :: W(node.emitted, o) == Table(node.c, node.L, node.R, o)
  {
    forall o ensures W(node.emitted, o) == Table(node.c, node.L, node.R, o) {
      SpecIsTable(node.c, node.L, node.R, o);
      assert W(node.emitted, o) + node.missing(o) == SpecWeight(node.c, node.L, node.R, o);
    }
  }

  // ---- one pair of rows ----

  // Neither side of the pair is a row of NULLs that a pad could produce.
  ghost predicate NoPads(c: Config, l: Row, r: Row) {
    !AllNull(r, c.rightWidth) && !AllNull(l, c.leftWidth)
  }

  // A join on equal keys and one comparison: the pair's weight, or nothing.
  lemma OneComparison(c: Config, L: ZSet<Row>, R: ZSet<Row>, l: Row, r: Row, a: int, b: int)
    requires !c.joinType.Mark? && |l| == c.leftWidth && NoPads(c, l, r) && EqualKeys(c, l, r)
    requires |c.residuals| == 1 && c.residuals[0].left(l) == Val(a) && c.residuals[0].right(r) == Val(b)
    ensures var w, both := JoinedWeight(c, L, R, l + r), W(L, l) * W(R, r);
            match c.residuals[0].cmp
            case Less => w == if a < b then both else 0
            case Greater => w == if b < a then both else 0
            case GreaterEqual => w == if b <= a then both else 0
            case LessEqual => w == if a <= b then both else 0
            case NotEqual => w == if a != b then both else 0
            case Equal => w == if a == b then both else 0
  {
    var o := l + r;
    assert o[..c.leftWidth] == l && o[c.leftWidth..] == r;
    OversAre(c, L, R, o);
    assert InOrder(c.residuals[0].cmp, a, b) <==> Compares(c.residuals[0], l, r);
  }

  // And with any number of them, NULL comparing as nothing.
  lemma AllComparisons(c: Config, L: ZSet<Row>, R: ZSet<Row>, l: Row, r: Row)
    requires !c.joinType.Mark? && |l| == c.leftWidth && NoPads(c, l, r)
    ensures JoinedWeight(c, L, R, l + r)
         == if EqualKeys(c, l, r) && forall i :: 0 <= i < |c.residuals| ==> Compares(c.residuals[i], l, r)
            then W(L, l) * W(R, r) else 0
  {
    var o := l + r;
    assert o[..c.leftWidth] == l && o[c.leftWidth..] == r;
    OversAre(c, L, R, o);
  }

  // ---- a shared side read through a projection ----

  // x is made of the columns that the projection names, NULL where the row
  // has no such column.
  predicate HasColumns(proj: seq<nat>, x: Row, row: Row) {
    && |x| == |proj|
    && forall i :: 0 <= i < |proj| ==> if proj[i] < |row| then x[i] == row[proj[i]] else x[i] == Null
  }

  ghost function WithColumns(proj: seq<nat>, x: Row): Row -> bool {
    row => HasColumns(proj, x, row)
  }

  // The projected table weighs a row as the rows with its columns do together.
  lemma ProjectedWeight(proj: seq<nat>, z: ZSet<Row>, x: Row)
    ensures W(ProjectZ(proj, z), x) == Mass(z, WithColumns(proj, x))
  {
    forall row ensures Onto(proj, x)(row) <==> WithColumns(proj, x)(row) {
      assert Onto(proj, x)(row) ==> |x| == |proj|;
      if HasColumns(proj, x, row) {
        assert Project(proj, row) == x;
      }
    }
    MassSame(z, Onto(proj, x), WithColumns(proj, x));
  }
}
