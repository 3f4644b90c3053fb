// When a range-split probe pass agrees with the serial one, and a run in
// which it does not (include/dbsp_plan_join.hpp).
module JoinShards {
  import opened ZSets
  import opened Rows
  import opened JoinSemantics
  import opened JoinStorage
  import opened JoinSides
  import opened JoinStep
  import opened JoinNode
  import PackedRow
  import LittleEndian
  import B = Buckets
  import P = PackedIntegrate
  import F = FlatPacked

  // What the range-split pass over dk gives an output row, and the serial one.
  ghost predicate Agree(c: Config, shardsCfg: nat, dk: seq<DeltaRow>, view: View, deltaLeft: bool) {
    forall o :: PassWeight(c, dk, Reached(view, PassWay(true, shardsCfg, |dk|)), deltaLeft, o)
             == PassWeight(c, dk, view, deltaLeft, o)
  }

  // A thread for every 512 rows begun, as far as there are threads.
  lemma ShardsAre(shardsCfg: nat, n: nat)
    requires shardsCfg > 0 && n > 0
    ensures var k := Shards(shardsCfg, n);
            0 < k <= shardsCfg && (k - 1) * 512 < n && (k == shardsCfg || n <= k * 512)
  {
  }

  // A pass over more than 512 delta rows is split exactly when the two deltas
  // hold 4096 rows together, and the join is an inner one on equal keys alone,
  // some column of which has no packed form.
  lemma SplitIff(c: Config, shardsCfg: nat, both: nat, n: nat)
    ensures PassWay(Shardable(c, shardsCfg, both), shardsCfg, n) == Threaded
            <==> && n > 512 && both >= 4096 && shardsCfg > 1 && c.joinType == Inner && |c.residuals| == 0
                 && !(PackedRow.TypesOk(c.leftTypes) && PackedRow.TypesOk(c.rightTypes))
  {
    if shardsCfg > 0 && n > 0 {
      ShardsAre(shardsCfg, n);
    }
  }

  // The delta has no match on the probed side.
  ghost predicate Unmatched(c: Config, dk: seq<DeltaRow>, view: View, deltaLeft: bool) {
    forall o :: PassWeight(c, dk, view, deltaLeft, o) == 0
  }

  // On given data: unless the delta has no match at all, both passes agree if
  // and only if there is at most one shard, or the probed side is not a
  // projected packed arrangement.
  lemma AgreeIff(c: Config, shardsCfg: nat, dk: seq<DeltaRow>, view: View, deltaLeft: bool)
    requires ViewOk(view)
    ensures Agree(c, shardsCfg, dk, view, deltaLeft) <==>
            Shards(shardsCfg, |dk|) <= 1 || !Blind(view) || Unmatched(c, dk, view, deltaLeft)
  {
    var reached := Reached(view, PassWay(true, shardsCfg, |dk|));
    if Shards(shardsCfg, |dk|) > 1 && Blind(view) {
      forall o
        ensures PassWeight(c, dk, reached, deltaLeft, o) == PassWeight(c, dk, view, deltaLeft, o)
                <==> PassWeight(c, dk, view, deltaLeft, o) == 0
      {
        DroppedPass(c, dk, view, deltaLeft, o);
      }
    } else {
      assert reached == view;
    }
  }

  // On all data, for sides stored one way.
  ghost predicate AlwaysAgree(shardsCfg: nat, shared: bool, packed: bool, projected: bool) {
    forall c: Config, dk: seq<DeltaRow>, view: View, deltaLeft: bool ::
      ViewOk(view) && view.shared == shared && view.store.packed == packed && view.proj.Some? == projected
      ==> Agree(c, shardsCfg, dk, view, deltaLeft)
  }

  lemma AlwaysAgreeIff(shardsCfg: nat, shared: bool, packed: bool, projected: bool)
    ensures AlwaysAgree(shardsCfg, shared, packed, projected) <==> shardsCfg <= 1 || !(shared && packed && projected)
  {
    if shardsCfg > 1 && shared && packed && projected {
      BlindWitness(shardsCfg);
    } else {
      forall c: Config, dk: seq<DeltaRow>, view: View, deltaLeft: bool
        | ViewOk(view) && view.shared == shared && view.store.packed == packed && view.proj.Some? == projected
        ensures Agree(c, shardsCfg, dk, view, deltaLeft)
      {
        AgreeIff(c, shardsCfg, dk, view, deltaLeft);
      }
    }
  }

  // ---- a packed arrangement that holds one empty row ----

  function EmptyRowForm(): Form {
    Form((row: Row) => [], vals => [])
  }

  function CrossProduct(): Config {
    Config(Inner, [], [], [], 0, 0, false, [], [], EmptyRowForm(), EmptyRowForm(), EmptyRowForm())
  }

  function OneRowView(): View {
    var e := Enc(EmptyRowForm(), []);
    View(true, Store(true, map[], EmptyRowForm(), EmptyRowForm(), F.Flat([], [], []), map[e := [B.Entry(e, 1)]]), Some([]))
  }

  lemma OneRowOk()
    ensures ViewOk(OneRowView())
    ensures var s, e := OneRowView().store, Enc(EmptyRowForm(), []);
            P.At(s.overlay, e) == [B.Entry(e, 1)] && F.Lookup(s.flat, e) == []
  {
    var s, f := OneRowView().store, EmptyRowForm();
    RowOfEnc(f, []);
    forall kb ensures AllEncoded(f, P.At(s.overlay, kb)) {
      assert P.At(s.overlay, kb) == [] || P.At(s.overlay, kb) == [B.Entry(Enc(f, []), 1)];
    }
  }

  lemma OneRowAt()
    ensures ViewOk(OneRowView()) && At(OneRowView().store, []) == map[[] := 1]
  {
    var s, e := OneRowView().store, Enc(EmptyRowForm(), []);
    RowOfEnc(EmptyRowForm(), []);
    OneRowOk();
    assert [B.Entry(e, 1)][..0] == [];
    forall r ensures W(At(s, []), r) == if r == [] then 1 else 0 {
      LayersWeight(s, [], r);
    }
    Extensional(At(s, []), map[[] := 1]);
  }

  lemma OneRowRead()
    ensures ViewOk(OneRowView()) && Read(OneRowView(), []) == map[[] := 1]
  {
    OneRowAt();
    ProjectInsert([], map[], [], 1);
    ProjectedNothing([]);
    var none: Row, one: ZSet<Row> := [], map[[] := 1];
    assert Insert(map[], none, 1) == one && Project([], none) == none;
  }

  // n delta rows with the empty key.
  function EmptyRows(n: nat): seq<DeltaRow> {
    seq(n, _ => DeltaRow([], 1, Some([])))
  }

  lemma {:induction false} EmptyRowsMatch(view: View, n: nat)
    requires Read(view, []) == map[[] := 1]
    ensures PassWeight(CrossProduct(), EmptyRows(n), view, true, []) == n
  {
    if n > 0 {
      assert EmptyRows(n)[..n - 1] == EmptyRows(n - 1);
      EmptyRowsMatch(view, n - 1);
    }
  }

  lemma BlindWitness(shardsCfg: nat)
    requires shardsCfg > 1
    ensures !AlwaysAgree(shardsCfg, true, true, true)
  {
    var dk, view := EmptyRows(1024), OneRowView();
    OneRowRead();
    EmptyRowsMatch(view, 1024);
    AgreeIff(CrossProduct(), shardsCfg, dk, view, true);
    assert Shards(shardsCfg, |dk|) > 1;
    assert !Agree(CrossProduct(), shardsCfg, dk, view, true);
  }

  // ---- a run that loses every match ----

  // A left table whose DECIMAL column keeps the node boxed, and a right table
  // of two INTEGER columns of which the query reads the first.
  function IntForm(): Form {
    Form((row: Row) => seq(|row|, i requires 0 <= i < |row| =>
                         if row[i].Val? && row[i].v >= 0 then PackedRow.Fixed(PackedRow.I32, row[i].v) else PackedRow.NullOf(0)),
         (vals: seq<PackedRow.Val>) => seq(|vals|, i requires 0 <= i < |vals| =>
                         if vals[i].Fixed? then Val(vals[i].bits) else Null))
  }

  function DecimalJoin(): Config {
    Config(Inner, [], [], [], 1, 1, false, [PackedRow.OtherType(0)], [PackedRow.FixedType(PackedRow.I32)],
           IntForm(), IntForm(), IntForm())
  }

  // The rows (0), (1), ..., (n - 1).
  function RowsUpTo(n: nat): ZSet<Row> {
    if n == 0 then map[] else RowsUpTo(n - 1)[[Val(n - 1)] := 1]
  }

  lemma {:induction false} RowsUpToAre(n: nat)
    ensures |RowsUpTo(n)| == n && Normal(RowsUpTo(n)) && NonNeg(RowsUpTo(n))
    ensures forall r: Row :: r in RowsUpTo(n) <==> |r| == 1 && r[0].Val? && 0 <= r[0].v < n
    ensures forall r :: r in RowsUpTo(n) ==> RowsUpTo(n)[r] == 1
  {
    if n > 0 {
      RowsUpToAre(n - 1);
      forall r: Row | |r| == 1 && r[0] == Val(n - 1) ensures r == [Val(n - 1)] {}
      assert [Val(n - 1)] !in RowsUpTo(n - 1);
      assert |RowsUpTo(n)| == |RowsUpTo(n - 1)| + 1;
    }
  }

  const STORED: Row := [Val(7), Val(8)]

  lemma StoredCodable()
    ensures Codable(IntForm(), STORED) && Codable(IntForm(), []) && Project([0], STORED) == [Val(7)]
    ensures EvalKey([], false, STORED) == Some([])
  {
    var f := IntForm();
    assert f.pack(STORED) == [PackedRow.Fixed(PackedRow.I32, 7), PackedRow.Fixed(PackedRow.I32, 8)];
    assert f.unpack(f.pack(STORED)) == STORED;
    assert LittleEndian.Pow256(4) == 256 * LittleEndian.Pow256(3);
    assert f.pack([]) == [] && f.unpack([]) == [];
    assert KeyValues([], STORED) == [];
  }

  lemma ShownStored()
    ensures ProjectZ([0], map[STORED := 1]) == map[[Val(7)] := 1]
  {
    StoredCodable();
    ProjectInsert([0], map[], STORED, 1);
    ProjectedNothing([0]);
    assert Insert(map[], STORED, 1) == map[STORED := 1];
    assert Insert(map[], [Val(7)], 1) == map[[Val(7)] := 1];
  }

  method RightArrangement() returns (arr: SharedArrangement)
    ensures fresh(arr) && arr.Valid() && arr.packedOk && arr.content == map[STORED := 1]
    ensures arr.keys == [] && !arr.nullSafe && !arr.trackWeights && !arr.trackCounters
  {
    var types := [PackedRow.FixedType(PackedRow.I32), PackedRow.FixedType(PackedRow.I32)];
    assert PackedRow.TypesOk(types);
    arr := new SharedArrangement([], false, false, false, types, IntForm(), IntForm());
    StoredCodable();
    arr.Apply(map[STORED := 1]);
    Extensional(Plus(map[], map[STORED := 1]), map[STORED := 1]);
  }

  const SEEN: ZSet<Row> := map[[Val(7)] := 1]

  lemma ArrangementFits(arr: SharedArrangement)
    requires arr.Valid() && arr.content == map[STORED := 1] && arr.keys == [] && !arr.nullSafe && !arr.trackWeights
    ensures Share(arr, Some([0])).FitsSide(DecimalJoin(), false) && Share(arr, Some([0])).Content() == SEEN && NonNeg(SEEN)
  {
    ShownStored();
  }

  // A node over that arrangement, before its first delta.
  method OverArrangement() returns (node: PlanJoinNode)
    ensures fresh(node) && node.Valid() && node.c == DecimalJoin() && node.shardsCfg == 2
    ensures node.L == map[] && node.R == SEEN && node.sharedLeft == NoShare
    ensures node.sharedRight.Share? && node.sharedRight.Blind()
    ensures node.sharedRight.FitsSide(node.c, false) && node.sharedRight.Content() == SEEN
  {
    var arr := RightArrangement();
    ArrangementFits(arr);
    node := new PlanJoinNode(DecimalJoin(), 2);
    node.SetSharedArrangement(false, Share(arr, Some([0])), true);
  }

  // All of a large left delta is left out.
  lemma AllOmitted(c: Config, dl: ZSet<Row>, contentL: ZSet<Row>, o: Row)
    requires c == DecimalJoin() && |dl| >= 4096
    ensures Omitted(c, 2, dl, map[], false, true, contentL, SEEN)(o) == InnerWeight(c, dl, SEEN, o)
  {
    assert c.leftTypes[0].OtherType?;
    assert Shards(2, |dl|) == 2;
  }

  // Every left row matches the one right row, and nothing is emitted.
  method ParallelProbeLosesEveryMatch(n: nat) returns (node: PlanJoinNode)
    requires n >= 4096
    ensures fresh(node) && node.Valid() && node.c == DecimalJoin() && node.shardsCfg == 2
    ensures node.L == RowsUpTo(n) && node.R == SEEN
    ensures forall v :: 0 <= v < n ==> SpecWeight(node.c, node.L, node.R, [Val(v), Val(7)]) == 1
    ensures node.output == map[]
  {
    var dl := RowsUpTo(n);
    RowsUpToAre(n);
    node := OverArrangement();
    ghost var omits;
    omits := StepAgainst(node, dl);
    NothingLeft(DecimalJoin(), node.output, omits, dl);
    forall v | 0 <= v < n ensures SpecWeight(node.c, node.L, node.R, [Val(v), Val(7)]) == 1 {
      MatchedOnce(n, v);
    }
  }

  method StepAgainst(node: PlanJoinNode, dl: ZSet<Row>) returns (ghost omits: Row -> int)
    requires node.Valid() && node.c == DecimalJoin() && node.shardsCfg == 2 && node.L == map[] && node.R == SEEN
    requires node.sharedLeft == NoShare && node.sharedRight.Share? && node.sharedRight.Blind()
    requires node.sharedRight.FitsSide(node.c, false) && node.sharedRight.Content() == SEEN
    requires Normal(dl) && NonNeg(dl) && |dl| >= 4096 && forall r :: r in dl ==> |r| == 1
    modifies node
    ensures node.Valid() && node.L == dl && node.R == SEEN
    ensures MovesWithout(DecimalJoin(), node.output, omits, map[], SEEN, dl, SEEN)
    ensures forall o :: omits(o) == InnerWeight(DecimalJoin(), dl, SEEN, o)
  {
    omits := node.Omits(dl, map[]);
    forall o ensures omits(o) == InnerWeight(node.c, dl, SEEN, o) {
      AllOmitted(node.c, dl, node.L, o);
    }
    FirstDelta(node, dl);
    node.Step(dl, map[]);
    PlusNothing(SEEN);
    Extensional(Plus(map[], dl), dl);
  }

  lemma FirstDelta(node: PlanJoinNode, dl: ZSet<Row>)
    requires node.c == DecimalJoin() && node.L == map[] && node.R == SEEN && node.sharedLeft == NoShare
    requires node.sharedRight.Share? && node.sharedRight.FitsSide(node.c, false) && node.sharedRight.Content() == SEEN
    requires Normal(dl) && NonNeg(dl) && forall r :: r in dl ==> |r| == 1
    ensures node.Steppable(dl, map[])
  {
    PlusNothing(SEEN);
    Extensional(Plus(map[], dl), dl);
    assert node.c.leftTypes[0].OtherType?;
  }

  lemma NothingLeft(c: Config, output: ZSet<Row>, omits: Row -> int, dl: ZSet<Row>)
    requires c == DecimalJoin() && MovesWithout(c, output, omits, map[], SEEN, dl, SEEN)
    requires forall o :: omits(o) == InnerWeight(c, dl, SEEN, o)
    ensures output == map[]
  {
    forall o ensures W(output, o) == 0 {
      assert W(output, o) == SpecWeight(c, dl, SEEN, o) - SpecWeight(c, map[], SEEN, o) - omits(o);
    }
    Extensional(output, map[]);
  }

  lemma MatchedOnce(n: nat, v: nat)
    requires v < n
    ensures SpecWeight(DecimalJoin(), RowsUpTo(n), SEEN, [Val(v), Val(7)]) == 1
  {
    RowsUpToAre(n);
    assert W(RowsUpTo(n), [Val(v)]) == 1;
    OneMatch(RowsUpTo(n), v);
  }

  lemma OneMatch(L: ZSet<Row>, v: nat)
    requires W(L, [Val(v)]) == 1
    ensures SpecWeight(DecimalJoin(), L, SEEN, [Val(v), Val(7)]) == 1
  {
    var c, o := DecimalJoin(), [Val(v), Val(7)];
    assert LeftPart(c, o) == [Val(v)] && RightPart(c, o) == [Val(7)];
    assert KeyValues([], [Val(v)]) == [] && KeyValues([], [Val(7)]) == [];
    assert KeyOf(c, true, [Val(v)]) == Some([]) && KeyOf(c, false, [Val(7)]) == Some([]);
    assert Matches(c, [Val(v)], [Val(7)]);
  }
}
