// What the join node must maintain: the SQL joined table (section 7.5 of
// ISO/IEC 9075:1992) and the three-valued IN predicate (section 8.4), as
// functions of the two integrated inputs.
module JoinSemantics {
  import opened ZSets
  import opened Rows
  import PackedRow

  datatype JoinType = Inner | Left | Right | Outer | Mark

  datatype Comparison = Greater | Less | GreaterEqual | LessEqual | NotEqual | Equal

  // A non-equality join condition between a left and a right expression.
  datatype Residual = Residual(left: Row -> Value, right: Row -> Value, cmp: Comparison)

  type KeyExprs = seq<Row -> Value>

  // How the rows of one shape are taken apart into the codec's typed values,
  // and put together again.
  datatype Form = Form(pack: Row -> seq<PackedRow.Val>, unpack: seq<PackedRow.Val> -> Row)

  // The fixed configuration of one join node. Expressions are abstract pure
  // functions of a row.
  datatype Config = Config(
    joinType: JoinType, leftKeys: KeyExprs, rightKeys: KeyExprs, residuals: seq<Residual>,
    leftWidth: nat, rightWidth: nat, nullSafe: bool,
    leftTypes: seq<PackedRow.Type>, rightTypes: seq<PackedRow.Type>,
    keyForm: Form, leftForm: Form, rightForm: Form)
  {
    function Keys(left: bool): KeyExprs { if left then leftKeys else rightKeys }
    predicate PadsLeft() { joinType.Left? || joinType.Outer? }
    predicate PadsRight() { joinType.Right? || joinType.Outer? }
    predicate Pads(left: bool) { if left then PadsLeft() else PadsRight() }
    function RowForm(left: bool): Form { if left then leftForm else rightForm }
    function Width(left: bool): nat { if left then leftWidth else rightWidth }

    // Whether the local sides are kept packed.
    predicate PackedOk() {
      !joinType.Mark? && !PadsRight() && PackedRow.TypesOk(leftTypes) && PackedRow.TypesOk(rightTypes)
    }
  }

  function KeyValues(keys: KeyExprs, row: Row): (k: Row)
    ensures |k| == |keys|
    ensures forall i :: 0 <= i < |keys| ==> k[i] == keys[i](row)
  {
    seq(|keys|, i requires 0 <= i < |keys| => keys[i](row))
  }

  // NULL keys never match unless the keys are null-safe.
  function EvalKey(keys: KeyExprs, nullSafe: bool, row: Row): Option<Row> {
    var k := KeyValues(keys, row);
    if !nullSafe && Null in k then None else Some(k)
  }

  function KeyOf(c: Config, left: bool, row: Row): Option<Row> {
    EvalKey(c.Keys(left), c.nullSafe, row)
  }

  predicate Compare(cmp: Comparison, a: int, b: int) {
    match cmp
    case Greater => b < a
    case Less => a < b
    case GreaterEqual => !(a < b)
    case LessEqual => !(b < a)
    case NotEqual => a != b
    case Equal => a == b
  }

  predicate ResidualPasses(res: Residual, l: Row, r: Row) {
    match (res.left(l), res.right(r))
    case (Val(a), Val(b)) => Compare(res.cmp, a, b)
    case _ => false
  }

  predicate ResidualsPass(c: Config, l: Row, r: Row) {
    forall i :: 0 <= i < |c.residuals| ==> ResidualPasses(c.residuals[i], l, r)
  }

  predicate Matches(c: Config, l: Row, r: Row) {
    && KeyOf(c, true, l).Some?
    && KeyOf(c, true, l) == KeyOf(c, false, r)
    && ResidualsPass(c, l, r)
  }

  // The same, for a row of the side `left` against a row of the other side.
  predicate MatchesFrom(c: Config, left: bool, own: Row, other: Row) {
    if left then Matches(c, own, other) else Matches(c, other, own)
  }

  ghost predicate Matched(c: Config, left: bool, own: Row, other: ZSet<Row>) {
    exists o :: o in other && other[o] > 0 && MatchesFrom(c, left, own, o)
  }

  // The outer-join pad weight of one row: all of it while nothing matches.
  ghost function PadWeight(c: Config, left: bool, row: Row, own: ZSet<Row>, other: ZSet<Row>): int {
    if c.Pads(left) && W(own, row) > 0 && !Matched(c, left, row, other) then W(own, row) else 0
  }

  // Output rows of a joined table are the left columns followed by the
  // right ones; a padded row has NULL for the columns of the other side.
  function LeftPart(c: Config, o: Row): Row { if |o| < c.leftWidth then o else o[..c.leftWidth] }
  function RightPart(c: Config, o: Row): Row { if |o| < c.leftWidth then [] else o[c.leftWidth..] }

  ghost function InnerWeight(c: Config, L: ZSet<Row>, R: ZSet<Row>, o: Row): int {
    if |o| >= c.leftWidth && Matches(c, LeftPart(c, o), RightPart(c, o))
    then W(L, LeftPart(c, o)) * W(R, RightPart(c, o)) else 0
  }

  // The part of an output row that a pad of the side `left` preserves.
  function Preserved(c: Config, left: bool, o: Row): Row {
    if left then LeftPart(c, o) else RightPart(c, o)
  }

  predicate IsPad(c: Config, left: bool, o: Row) {
    && |o| >= c.leftWidth
    && if left then RightPart(c, o) == Nulls(c.rightWidth) else LeftPart(c, o) == Nulls(c.leftWidth)
  }

  function PadRow(c: Config, left: bool, row: Row): Row {
    if left then row + Nulls(c.rightWidth) else Nulls(c.leftWidth) + row
  }

  lemma PadRowInjective(c: Config, left: bool, row: Row, o: Row)
    requires left ==> |row| == c.leftWidth
    ensures o == PadRow(c, left, row) <==> IsPad(c, left, o) && Preserved(c, left, o) == row
  {
    if |o| >= c.leftWidth {
      assert o == LeftPart(c, o) + RightPart(c, o);
    }
  }

  ghost function JoinedWeight(c: Config, L: ZSet<Row>, R: ZSet<Row>, o: Row): int {
    InnerWeight(c, L, R, o)
    + (if IsPad(c, true, o) then PadWeight(c, true, LeftPart(c, o), L, R) else 0)
    + (if IsPad(c, false, o) then PadWeight(c, false, RightPart(c, o), R, L) else 0)
  }

  // ---- MARK: left rows followed by a three-valued mark ----

  function HasNullKey(c: Config, left: bool, row: Row): bool { KeyOf(c, left, row).None? }

  ghost predicate NonEmpty(z: ZSet<Row>) { exists x :: x in z && z[x] > 0 }

  ghost predicate SomeNullKey(c: Config, R: ZSet<Row>) {
    exists r :: r in R && R[r] > 0 && HasNullKey(c, false, r)
  }

  const TRUE := Val(1)
  const FALSE := Val(0)

  // The mark the node is to emit for a left row.
  ghost function MarkOf(c: Config, l: Row, R: ZSet<Row>): Value {
    if Matched(c, true, l, R) then TRUE
    else if !NonEmpty(R) then FALSE
    else if HasNullKey(c, true, l) || SomeNullKey(c, R) then Null
    else FALSE
  }

  ghost function MarkWeight(c: Config, L: ZSet<Row>, R: ZSet<Row>, o: Row): int {
    if |o| > 0 && W(L, o[..|o|-1]) > 0 && o[|o|-1] == MarkOf(c, o[..|o|-1], R)
    then W(L, o[..|o|-1]) else 0
  }

  ghost function SpecWeight(c: Config, L: ZSet<Row>, R: ZSet<Row>, o: Row): int {
    if c.joinType.Mark? then MarkWeight(c, L, R, o) else JoinedWeight(c, L, R, o)
  }

  // Every left row of positive weight occurs with exactly one mark.
  lemma MarkedOnce(c: Config, L: ZSet<Row>, R: ZSet<Row>, l: Row, mark: Value)
    requires NonNeg(L)
    ensures MarkWeight(c, L, R, l + [mark]) == if mark == MarkOf(c, l, R) then W(L, l) else 0
  {
    var o := l + [mark];
    assert o[..|o| - 1] == l;
    assert W(L, l) >= 0;
  }

  // ---- The IN predicate, independently of the node ----

  // Three-valued comparison of one value pair and of two rows, and the
  // three-valued disjunction over the rows of the subquery.
  datatype Truth = True | False | Unknown

  function Cmp3(cmp: Comparison, nullSafe: bool, a: Value, b: Value): Truth {
    if nullSafe then if a == b then True else False
    else if a.Null? || b.Null? then Unknown
    else if Compare(cmp, a.v, b.v) then True else False
  }

  predicate KeysWellFormed(c: Config) { |c.leftKeys| == |c.rightKeys| }

  function KeyCmp(c: Config, i: nat, l: Row, r: Row): Truth
    requires KeysWellFormed(c) && i < |c.leftKeys|
  {
    Cmp3(Equal, c.nullSafe, c.leftKeys[i](l), c.rightKeys[i](r))
  }

  function ResidualCmp(c: Config, i: nat, l: Row, r: Row): Truth
    requires i < |c.residuals|
  {
    Cmp3(c.residuals[i].cmp, false, c.residuals[i].left(l), c.residuals[i].right(r))
  }

  // AND over all conditions of the join.
  ghost function Cond3(c: Config, l: Row, r: Row): Truth
    requires KeysWellFormed(c)
  {
    if (exists i :: 0 <= i < |c.leftKeys| && KeyCmp(c, i, l, r).False?)
    || (exists i :: 0 <= i < |c.residuals| && ResidualCmp(c, i, l, r).False?) then False
    else if (forall i :: 0 <= i < |c.leftKeys| ==> KeyCmp(c, i, l, r).True?)
         && (forall i :: 0 <= i < |c.residuals| ==> ResidualCmp(c, i, l, r).True?) then True
    else Unknown
  }

  // l IN (subquery): OR over the rows of the subquery.
  ghost function In3(c: Config, l: Row, R: ZSet<Row>): Truth
    requires KeysWellFormed(c)
  {
    if exists r :: r in R && R[r] > 0 && Cond3(c, l, r).True? then True
    else if exists r :: r in R && R[r] > 0 && Cond3(c, l, r).Unknown? then Unknown
    else False
  }

  function AsMark(t: Truth): Value {
    match t case True => TRUE case False => FALSE case Unknown => Null
  }

  lemma CondTrueIffMatches(c: Config, l: Row, r: Row)
    requires KeysWellFormed(c)
    ensures Cond3(c, l, r).True? <==> Matches(c, l, r)
  {
    var kl, kr := KeyValues(c.leftKeys, l), KeyValues(c.rightKeys, r);
    assert forall i :: 0 <= i < |kl| ==> kl[i] == c.leftKeys[i](l) && kr[i] == c.rightKeys[i](r);
    if Cond3(c, l, r).True? {
      forall i | 0 <= i < |kl| ensures kl[i] == kr[i] && (!c.nullSafe ==> kl[i] != Null) {
        assert KeyCmp(c, i, l, r).True?;
      }
      assert kl == kr;
      forall i | 0 <= i < |c.residuals| ensures ResidualPasses(c.residuals[i], l, r) {
        assert ResidualCmp(c, i, l, r).True?;
      }
    }
    if Matches(c, l, r) {
      assert kl == kr;
      forall i | 0 <= i < |c.leftKeys| ensures KeyCmp(c, i, l, r).True? {
        assert kl[i] == kr[i] && kl[i] in kl;
      }
      forall i | 0 <= i < |c.residuals| ensures ResidualCmp(c, i, l, r).True? {
        assert ResidualPasses(c.residuals[i], l, r);
      }
    }
  }

  // The guard of the branch that emits a NULL mark.
  ghost predicate NullBranch(c: Config, l: Row, R: ZSet<Row>) {
    NonEmpty(R) && !Matched(c, true, l, R) && (HasNullKey(c, true, l) || SomeNullKey(c, R))
  }

  // Exactly when the node's mark is the SQL one: the branch that emits NULL
  // is taken if and only if nothing matches and some subquery row really
  // compares as unknown.
  lemma MarkAgreesExactly(c: Config, l: Row, R: ZSet<Row>)
    requires KeysWellFormed(c)
    ensures MarkOf(c, l, R) == AsMark(In3(c, l, R)) <==>
            (Matched(c, true, l, R) ||
             (NullBranch(c, l, R) <==> exists r :: r in R && R[r] > 0 && Cond3(c, l, r).Unknown?))
  {
    forall r | r in R && R[r] > 0
      ensures Cond3(c, l, r).True? <==> MatchesFrom(c, true, l, r)
    {
      CondTrueIffMatches(c, l, r);
    }
  }

  // One key column and no residual (every IN over a single expression), or
  // null-safe keys without residuals: always the SQL mark.
  lemma MarkIsSqlIn(c: Config, l: Row, R: ZSet<Row>)
    requires KeysWellFormed(c) && c.residuals == []
    requires c.nullSafe || |c.leftKeys| <= 1
    ensures MarkOf(c, l, R) == AsMark(In3(c, l, R))
  {
    MarkAgreesExactly(c, l, R);
    forall r | r in R && R[r] > 0
      ensures Cond3(c, l, r).Unknown? <==> HasNullKey(c, true, l) || HasNullKey(c, false, r)
    {
      var kl, kr := KeyValues(c.leftKeys, l), KeyValues(c.rightKeys, r);
      if !c.nullSafe && |c.leftKeys| == 1 {
        assert kl == [c.leftKeys[0](l)] && kr == [c.rightKeys[0](r)];
        assert KeyCmp(c, 0, l, r) == Cmp3(Equal, false, kl[0], kr[0]);
      } else if !c.nullSafe {
        assert kl == [] && kr == [];
      }
    }
  }

  // ---- Where the mark is not the SQL one ----

  function Column(i: nat): Row -> Value {
    (row: Row) => if i < |row| then row[i] else Null
  }

  function NoForm(): Form {
    Form((row: Row) => [], vals => [])
  }

  // A MARK join whose keys are the first n columns of both sides and whose
  // residuals compare the columns after them.
  function ColumnMark(n: nat, cmps: seq<Comparison>, nullSafe: bool): Config {
    Config(Mark, seq(n, i requires 0 <= i => Column(i)), seq(n, i requires 0 <= i => Column(i)),
           seq(|cmps|, i requires 0 <= i < |cmps| => Residual(Column(n + i), Column(n + i), cmps[i])),
           n + |cmps|, n + |cmps|, nullSafe, [], [], NoForm(), NoForm(), NoForm())
  }

  ghost predicate AlwaysSqlIn(c: Config)
    requires KeysWellFormed(c)
  {
    forall l: Row, R: ZSet<Row> :: MarkOf(c, l, R) == AsMark(In3(c, l, R))
  }

  // The mark is FALSE although x > ANY (subquery) with x NULL is unknown.
  lemma ResidualMarkDiffers(n: nat, cmps: seq<Comparison>, nullSafe: bool)
    requires cmps != []
    ensures !AlwaysSqlIn(ColumnMark(n, cmps, nullSafe))
  {
    var c := ColumnMark(n, cmps, nullSafe);
    var l := seq(n, _ => Val(0)) + Nulls(|cmps|);
    var r := seq(n + |cmps|, _ => Val(0));
    var R := map[r := 1];
    forall i | 0 <= i < n
      ensures KeyValues(c.leftKeys, l)[i] == Val(0) && KeyValues(c.rightKeys, r)[i] == Val(0)
      ensures KeyCmp(c, i, l, r).True?
    {
    }
    assert Null !in KeyValues(c.leftKeys, l) && Null !in KeyValues(c.rightKeys, r);
    forall i | 0 <= i < |cmps| ensures ResidualCmp(c, i, l, r).Unknown? {
    }
    assert ResidualCmp(c, 0, l, r).Unknown?;
    assert Cond3(c, l, r).Unknown?;
    assert r in R && R[r] > 0;
    assert In3(c, l, R).Unknown?;
    CondTrueIffMatches(c, l, r);
    assert MarkOf(c, l, R) == FALSE;
  }

  // (NULL, 0) IN ((0, 1)) is FALSE, since the second columns differ; the
  // node's mark is NULL because one key column is NULL.
  lemma MultiColumnMarkDiffers(n: nat)
    requires n >= 2
    ensures !AlwaysSqlIn(ColumnMark(n, [], false))
  {
    var c := ColumnMark(n, [], false);
    var l := [Null] + seq(n - 1, _ => Val(0));
    var r := [Val(0), Val(1)] + seq(n - 2, _ => Val(0));
    var R := map[r := 1];
    assert KeyValues(c.leftKeys, l)[0] == Null;
    assert KeyCmp(c, 1, l, r).False?;
    assert Cond3(c, l, r).False?;
    CondTrueIffMatches(c, l, r);
    assert r in R && R[r] > 0;
    assert NonEmpty(R) && HasNullKey(c, true, l);
    assert MarkOf(c, l, R) == Null;
    assert In3(c, l, R).False?;
  }

  lemma MarkIsSqlInIff(n: nat, cmps: seq<Comparison>, nullSafe: bool)
    ensures AlwaysSqlIn(ColumnMark(n, cmps, nullSafe)) <==> cmps == [] && (nullSafe || n <= 1)
  {
    var c := ColumnMark(n, cmps, nullSafe);
    if cmps != [] {
      ResidualMarkDiffers(n, cmps, nullSafe);
    } else if !nullSafe && n >= 2 {
      MultiColumnMarkDiffers(n);
    } else {
      forall l: Row, R: ZSet<Row> ensures MarkOf(c, l, R) == AsMark(In3(c, l, R)) {
        MarkIsSqlIn(c, l, R);
      }
    }
  }
}
