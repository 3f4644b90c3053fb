// The passes of one join step over however its sides are stored: probing,
// integration, pads and marks (include/dbsp_plan_join.hpp).
module JoinStep {
  import opened ZSets
  import opened Rows
  import opened JoinSemantics
  import opened JoinStorage
  import opened JoinSides
  import T = FlatTotals

  // ---- probe passes ----

  // What one delta row of the side `deltaLeft` contributes to output row o
  // when its key is looked up on the other side.
  ghost function EntryWeight(c: Config, e: DeltaRow, view: View, deltaLeft: bool, o: Row): int {
    var own, other := Preserved(c, deltaLeft, o), Preserved(c, !deltaLeft, o);
    if |o| >= c.leftWidth && e.key.Some? && own == e.row && ResidualsPass(c, LeftPart(c, o), RightPart(c, o))
    then e.weight * W(Read(view, e.key.value), other) else 0
  }

  ghost function PassWeight(c: Config, dk: seq<DeltaRow>, view: View, deltaLeft: bool, o: Row): int {
    if dk == [] then 0
    else PassWeight(c, dk[..|dk| - 1], view, deltaLeft, o) + EntryWeight(c, dk[|dk| - 1], view, deltaLeft, o)
  }

  lemma {:induction false} PassWeightSplit(c: Config, a: seq<DeltaRow>, b: seq<DeltaRow>, view: View, deltaLeft: bool, o: Row)
    ensures PassWeight(c, a + b, view, deltaLeft, o)
         == PassWeight(c, a, view, deltaLeft, o) + PassWeight(c, b, view, deltaLeft, o)
  {
    if b == [] {
      assert a + b == a;
    } else {
      var n := |b| - 1;
      assert (a + b)[..|a + b| - 1] == a + b[..n] && (a + b)[|a + b| - 1] == b[n];
      PassWeightSplit(c, a, b[..n], view, deltaLeft, o);
    }
  }

  // The weight at o of (delta join other), as a Z-set formula.
  ghost function ProductWeight(c: Config, deltaLeft: bool, delta: ZSet<Row>, other: ZSet<Row>, o: Row): int {
    if deltaLeft then InnerWeight(c, delta, other, o) else InnerWeight(c, other, delta, o)
  }

  lemma {:induction false} PassWeightZero(c: Config, dk: seq<DeltaRow>, view: View, deltaLeft: bool, o: Row)
    requires forall i :: 0 <= i < |dk| ==> dk[i].row != Preserved(c, deltaLeft, o)
    ensures PassWeight(c, dk, view, deltaLeft, o) == 0
  {
    if dk != [] {
      PassWeightZero(c, dk[..|dk| - 1], view, deltaLeft, o);
    }
  }

  lemma PassWeightAt(c: Config, dk: seq<DeltaRow>, i: nat, view: View, deltaLeft: bool, o: Row)
    requires i < |dk| && dk[i].row == Preserved(c, deltaLeft, o)
    requires forall j :: 0 <= j < |dk| && j != i ==> dk[j].row != Preserved(c, deltaLeft, o)
    ensures PassWeight(c, dk, view, deltaLeft, o) == EntryWeight(c, dk[i], view, deltaLeft, o)
  {
    assert dk == dk[..i] + [dk[i]] + dk[i + 1..];
    PassWeightSplit(c, dk[..i] + [dk[i]], dk[i + 1..], view, deltaLeft, o);
    PassWeightSplit(c, dk[..i], [dk[i]], view, deltaLeft, o);
    PassWeightZero(c, dk[..i], view, deltaLeft, o);
    PassWeightZero(c, dk[i + 1..], view, deltaLeft, o);
    assert [dk[i]][..0] == [];
  }

  lemma EntryIsProduct(c: Config, e: DeltaRow, delta: ZSet<Row>, view: View, other: ZSet<Row>,
                       deltaLeft: bool, o: Row)
    requires e.row == Preserved(c, deltaLeft, o) && e.weight == W(delta, e.row)
    requires e.key == KeyOf(c, deltaLeft, e.row)
    requires Indexes(c.Keys(!deltaLeft), c.nullSafe, view, other)
    ensures EntryWeight(c, e, view, deltaLeft, o) == ProductWeight(c, deltaLeft, delta, other, o)
  {
    var peer := Preserved(c, !deltaLeft, o);
    if e.key.Some? {
      assert W(Read(view, e.key.value), peer) == if KeyOf(c, !deltaLeft, peer) == e.key then W(other, peer) else 0;
    }
  }

  // Probing every delta row once is the join of the delta with the indexed side.
  lemma PassIsProduct(c: Config, dk: seq<DeltaRow>, delta: ZSet<Row>, view: View, other: ZSet<Row>,
                      deltaLeft: bool, o: Row)
    requires Materialized(c.Keys(deltaLeft), c.nullSafe, dk, delta)
    requires Indexes(c.Keys(!deltaLeft), c.nullSafe, view, other)
    ensures PassWeight(c, dk, view, deltaLeft, o) == ProductWeight(c, deltaLeft, delta, other, o)
  {
    var own := Preserved(c, deltaLeft, o);
    if own in delta {
      var i :| 0 <= i < |dk| && dk[i].row == own;
      PassWeightAt(c, dk, i, view, deltaLeft, o);
      EntryIsProduct(c, dk[i], delta, view, other, deltaLeft, o);
    } else {
      PassWeightZero(c, dk, view, deltaLeft, o);
    }
  }

  // Left rows have the declared width, so an output row splits uniquely.
  ghost predicate Typed(c: Config, left: bool, z: ZSet<Row>) {
    left ==> forall r :: r in z ==> |r| == c.leftWidth
  }

  ghost predicate TypedView(c: Config, left: bool, view: View) {
    left ==> forall k, r {:trigger r in Read(view, k)} :: r in Read(view, k) ==> |r| == c.leftWidth
  }

  lemma ViewTyped(c: Config, left: bool, view: View, content: ZSet<Row>)
    requires Indexes(c.Keys(left), c.nullSafe, view, content) && Typed(c, left, content)
    ensures TypedView(c, left, view)
  {
    if left {
      forall k, r | r in Read(view, k) ensures |r| == c.leftWidth {
        ReadNormal(view, k);
        assert W(Read(view, k), r) != 0;
      }
    }
  }

  lemma ReachedTyped(c: Config, left: bool, view: View, way: Way)
    requires ViewOk(view) && TypedView(c, left, view)
    ensures TypedView(c, left, Reached(view, way))
  {
    if way.Threaded? && Blind(view) {
      forall k ensures Read(Reached(view, way), k) == map[] {
        BlindReadsNothing(view, k);
      }
    }
  }

  function Concat(deltaLeft: bool, own: Row, other: Row): Row {
    if deltaLeft then own + other else other + own
  }

  lemma ConcatSplits(c: Config, deltaLeft: bool, own: Row, other: Row, o: Row)
    requires (if deltaLeft then |own| else |other|) == c.leftWidth
    ensures o == Concat(deltaLeft, own, other) <==>
            |o| >= c.leftWidth && Preserved(c, deltaLeft, o) == own && Preserved(c, !deltaLeft, o) == other
  {
    if |o| >= c.leftWidth {
      assert o == LeftPart(c, o) + RightPart(c, o);
    }
  }

  // The candidates not in `todo` have been emitted.
  ghost predicate Emitted(c: Config, e: DeltaRow, view: View, deltaLeft: bool, sign: int,
                          out0: ZSet<Row>, out: ZSet<Row>, todo: set<Row>)
  {
    && Normal(out)
    && forall o {:trigger W(out, o)} :: W(out, o) == W(out0, o) +
         if Preserved(c, !deltaLeft, o) in todo then 0 else sign * EntryWeight(c, e, view, deltaLeft, o)
  }

  lemma EntryZero(c: Config, e: DeltaRow, view: View, deltaLeft: bool, o: Row)
    requires e.key.Some? ==> Preserved(c, !deltaLeft, o) !in Read(view, e.key.value)
    ensures EntryWeight(c, e, view, deltaLeft, o) == 0
  {
  }

  lemma EmitNothing(c: Config, e: DeltaRow, view: View, deltaLeft: bool, sign: int, out0: ZSet<Row>)
    requires Normal(out0)
    ensures Emitted(c, e, view, deltaLeft, sign, out0, out0,
                    if e.key.Some? then Read(view, e.key.value).Keys else {})
  {
    var todo := if e.key.Some? then Read(view, e.key.value).Keys else {};
    forall o ensures W(out0, o) == W(out0, o) +
      if Preserved(c, !deltaLeft, o) in todo then 0 else sign * EntryWeight(c, e, view, deltaLeft, o)
    {
      if Preserved(c, !deltaLeft, o) !in todo {
        EntryZero(c, e, view, deltaLeft, o);
      }
    }
  }

  lemma EmitStep(c: Config, e: DeltaRow, view: View, deltaLeft: bool, sign: int,
                 out0: ZSet<Row>, was: ZSet<Row>, out: ZSet<Row>, todo: set<Row>, other: Row)
    requires Emitted(c, e, view, deltaLeft, sign, out0, was, todo)
    requires other in todo && e.key.Some? && other in Read(view, e.key.value)
    requires (if deltaLeft then |e.row| else |other|) == c.leftWidth
    requires out == if MatchingPair(c, deltaLeft, e.row, other)
                    then Insert(was, Concat(deltaLeft, e.row, other), sign * (e.weight * Read(view, e.key.value)[other]))
                    else was
    ensures Emitted(c, e, view, deltaLeft, sign, out0, out, todo - {other})
  {
    forall o ensures W(out, o) == W(out0, o) +
      if Preserved(c, !deltaLeft, o) in todo - {other} then 0 else sign * EntryWeight(c, e, view, deltaLeft, o)
    {
      ConcatSplits(c, deltaLeft, e.row, other, o);
      assert W(was, o) == W(out0, o) +
         if Preserved(c, !deltaLeft, o) in todo then 0 else sign * EntryWeight(c, e, view, deltaLeft, o);
    }
  }

  predicate MatchingPair(c: Config, deltaLeft: bool, own: Row, other: Row) {
    if deltaLeft then ResidualsPass(c, own, other) else ResidualsPass(c, other, own)
  }

  // Probe the other side for one delta row and emit every candidate pair
  // that passes the residuals.
  method EmitRow(c: Config, e: DeltaRow, view: View, way: Way, deltaLeft: bool, sign: int, out0: ZSet<Row>)
    returns (out: ZSet<Row>)
    requires Normal(out0) && ViewOk(view)
    requires deltaLeft ==> |e.row| == c.leftWidth
    requires TypedView(c, !deltaLeft, Reached(view, way))
    ensures Normal(out)
    ensures forall o {:trigger W(out, o)} ::
              W(out, o) == W(out0, o) + sign * EntryWeight(c, e, Reached(view, way), deltaLeft, o)
  {
    out := out0;
    ghost var reached := Reached(view, way);
    EmitNothing(c, e, reached, deltaLeft, sign, out0);
    if e.key.None? {
      return;
    }
    var bucket := Probe(view, way, e.key.value);
    var todo := bucket.Keys;
    while todo != {}
      invariant todo <= bucket.Keys
      invariant Emitted(c, e, reached, deltaLeft, sign, out0, out, todo)
      decreases todo
    {
      var other :| other in todo;
      ghost var was := out;
      if MatchingPair(c, deltaLeft, e.row, other) {
        out := Insert(out, Concat(deltaLeft, e.row, other), sign * (e.weight * bucket[other]));
      }
      EmitStep(c, e, reached, deltaLeft, sign, out0, was, out, todo, other);
      todo := todo - {other};
    }
  }

  // One probe per row of a materialized delta.
  method ProbePass(c: Config, dk: seq<DeltaRow>, view: View, way: Way, deltaLeft: bool, sign: int, out0: ZSet<Row>)
    returns (out: ZSet<Row>)
    requires Normal(out0) && ViewOk(view)
    requires deltaLeft ==> forall i :: 0 <= i < |dk| ==> |dk[i].row| == c.leftWidth
    requires TypedView(c, !deltaLeft, Reached(view, way))
    ensures Normal(out)
    ensures forall o {:trigger W(out, o)} ::
              W(out, o) == W(out0, o) + sign * PassWeight(c, dk, Reached(view, way), deltaLeft, o)
  {
    out := out0;
    ghost var reached := Reached(view, way);
    assert dk[..0] == [];
    assert forall o :: PassWeight(c, dk[..0], reached, deltaLeft, o) == 0;
    for i := 0 to |dk|
      invariant Normal(out)
      invariant forall o {:trigger W(out, o)} ::
                  W(out, o) == W(out0, o) + sign * PassWeight(c, dk[..i], reached, deltaLeft, o)
    {
      ghost var was := out;
      out := EmitRow(c, dk[i], view, way, deltaLeft, sign, out);
      forall o ensures W(out, o) == W(out0, o) + sign * PassWeight(c, dk[..i + 1], reached, deltaLeft, o) {
        assert dk[..i + 1][..i] == dk[..i];
        Distribute(sign, PassWeight(c, dk[..i], reached, deltaLeft, o), EntryWeight(c, dk[i], reached, deltaLeft, o));
        assert W(was, o) == W(out0, o) + sign * PassWeight(c, dk[..i], reached, deltaLeft, o);
      }
    }
    assert dk[..|dk|] == dk;
  }

  lemma Distribute(s: int, a: int, b: int)
    ensures s * (a + b) == s * a + s * b
  {
  }

  // ---- the range-split pass ----

  function Shards(shardsCfg: nat, n: nat): nat {
    Min(shardsCfg, (n + 511) / 512)
  }

  // How a pass over n delta rows probes.
  function PassWay(shardable: bool, shardsCfg: nat, n: nat): Way {
    if !shardable then Serial else if Shards(shardsCfg, n) <= 1 then Inline else Threaded
  }

  // A pass whose threads look for their matches where none are kept.
  predicate Drops(shardable: bool, shardsCfg: nat, n: nat, blind: bool) {
    PassWay(shardable, shardsCfg, n).Threaded? && blind
  }

  // Contiguous chunks of the delta go to separate Z-sets, merged afterwards.
  method ShardedProbe(c: Config, dk: seq<DeltaRow>, view: View, deltaLeft: bool, shardsCfg: nat, out0: ZSet<Row>)
    returns (out: ZSet<Row>)
    requires Normal(out0) && ViewOk(view)
    requires deltaLeft ==> forall i :: 0 <= i < |dk| ==> |dk[i].row| == c.leftWidth
    requires TypedView(c, !deltaLeft, view)
    ensures Normal(out)
    ensures forall o {:trigger W(out, o)} :: W(out, o) == W(out0, o)
              + 1 * PassWeight(c, dk, Reached(view, PassWay(true, shardsCfg, |dk|)), deltaLeft, o)
  {
    var n := |dk|;
    var shards := Shards(shardsCfg, n);
    ReachedTyped(c, !deltaLeft, view, PassWay(true, shardsCfg, n));
    if shards <= 1 {
      out := ProbePass(c, dk, view, Inline, deltaLeft, 1, out0);
      return;
    }
    var chunk := (n + shards - 1) / shards;
    var outs := RunShards(c, dk, view, deltaLeft, shards, chunk);
    out := MergeShards(c, dk, Reached(view, Threaded), deltaLeft, shards, chunk, outs, out0);
    CeilingCovers(n, shards);
    assert dk[..Min(n, shards * chunk)] == dk;
  }

  ghost predicate ShardOf(c: Config, dk: seq<DeltaRow>, view: View, deltaLeft: bool, out: ZSet<Row>) {
    Normal(out) && forall o {:trigger W(out, o)} :: W(out, o) == PassWeight(c, dk, view, deltaLeft, o)
  }

  method RunShards(c: Config, dk: seq<DeltaRow>, view: View, deltaLeft: bool, shards: nat, chunk: nat)
    returns (outs: seq<ZSet<Row>>)
    requires ViewOk(view)
    requires deltaLeft ==> forall i :: 0 <= i < |dk| ==> |dk[i].row| == c.leftWidth
    requires TypedView(c, !deltaLeft, Reached(view, Threaded))
    ensures |outs| == shards
    ensures forall t :: 0 <= t < shards ==> ShardOf(c, Chunk(dk, t, chunk), Reached(view, Threaded), deltaLeft, outs[t])
  {
    outs := [];
    for t := 0 to shards
      invariant |outs| == t
      invariant forall s :: 0 <= s < t ==> ShardOf(c, Chunk(dk, s, chunk), Reached(view, Threaded), deltaLeft, outs[s])
    {
      var shard := ProbePass(c, Chunk(dk, t, chunk), view, Threaded, deltaLeft, 1, map[]);
      outs := outs + [shard];
    }
  }

  method MergeShards(c: Config, dk: seq<DeltaRow>, ghost view: View, deltaLeft: bool, shards: nat, chunk: nat,
                     outs: seq<ZSet<Row>>, out0: ZSet<Row>) returns (out: ZSet<Row>)
    requires Normal(out0)
    requires |outs| == shards
    requires forall t :: 0 <= t < shards ==> ShardOf(c, Chunk(dk, t, chunk), view, deltaLeft, outs[t])
    ensures Normal(out)
    ensures forall o {:trigger W(out, o)} :: W(out, o) == W(out0, o) +
              PassWeight(c, dk[..Min(|dk|, shards * chunk)], view, deltaLeft, o)
  {
    out := out0;
    assert dk[..Min(|dk|, 0 * chunk)] == [];
    assert forall o :: PassWeight(c, dk[..Min(|dk|, 0 * chunk)], view, deltaLeft, o) == 0;
    for t := 0 to shards
      invariant Normal(out)
      invariant forall o {:trigger W(out, o)} :: W(out, o) == W(out0, o) +
                  PassWeight(c, dk[..Min(|dk|, t * chunk)], view, deltaLeft, o)
    {
      ghost var was := out;
      out := Plus(out, outs[t]);
      ChunkExtends(dk, t, chunk);
      forall o ensures W(out, o) == W(out0, o) + PassWeight(c, dk[..Min(|dk|, (t + 1) * chunk)], view, deltaLeft, o) {
        PassWeightSplit(c, dk[..Min(|dk|, t * chunk)], Chunk(dk, t, chunk), view, deltaLeft, o);
        assert W(was, o) == W(out0, o) + PassWeight(c, dk[..Min(|dk|, t * chunk)], view, deltaLeft, o);
        assert W(outs[t], o) == PassWeight(c, Chunk(dk, t, chunk), view, deltaLeft, o);
      }
    }
  }

  function Min(a: int, b: int): int { if a < b then a else b }

  lemma ChunkBounds(n: nat, t: nat, chunk: nat)
    ensures 0 <= Min(n, t * chunk) <= Min(n, (t + 1) * chunk) <= n
  {
    assert (t + 1) * chunk == t * chunk + chunk;
  }

  function Chunk<T>(s: seq<T>, t: nat, chunk: nat): seq<T> {
    ChunkBounds(|s|, t, chunk);
    s[Min(|s|, t * chunk)..Min(|s|, (t + 1) * chunk)]
  }

  lemma ChunkExtends<T>(s: seq<T>, t: nat, chunk: nat)
    ensures 0 <= Min(|s|, t * chunk) && 0 <= Min(|s|, (t + 1) * chunk)
    ensures s[..Min(|s|, (t + 1) * chunk)] == s[..Min(|s|, t * chunk)] + Chunk(s, t, chunk)
  {
    ChunkBounds(|s|, t, chunk);
  }

  lemma CeilingCovers(n: nat, shards: nat)
    requires shards > 0
    ensures shards * ((n + shards - 1) / shards) >= n
  {
  }

  // ---- the bilinear delta ----

  // Probing a side that already holds this step's delta shifts the cross
  // term: added with no side shared, dropped with one, subtracted with two.
  function CrossSign(sharedLeft: bool, sharedRight: bool): int {
    if sharedLeft && sharedRight then -1 else if sharedLeft || sharedRight then 0 else 1
  }

  lemma BilinearDelta(c: Config, L: ZSet<Row>, R: ZSet<Row>, dl: ZSet<Row>, dr: ZSet<Row>,
                      sharedLeft: bool, sharedRight: bool, o: Row)
    ensures InnerWeight(c, dl, if sharedRight then Plus(R, dr) else R, o)
          + InnerWeight(c, if sharedLeft then Plus(L, dl) else L, dr, o)
          + CrossSign(sharedLeft, sharedRight) * InnerWeight(c, dl, dr, o)
         == InnerWeight(c, Plus(L, dl), Plus(R, dr), o) - InnerWeight(c, L, R, o)
  {
    var l, r := LeftPart(c, o), RightPart(c, o);
    BilinearArithmetic(W(L, l), W(dl, l), W(R, r), W(dr, r));
  }

  lemma BilinearArithmetic(a: int, da: int, b: int, db: int)
    ensures (a + da) * (b + db) - a * b == da * b + a * db + da * db
    ensures (a + da) * (b + db) - a * b == da * (b + db) + a * db
    ensures (a + da) * (b + db) - a * b == da * b + (a + da) * db
    ensures (a + da) * (b + db) - a * b == da * (b + db) + (a + da) * db - da * db
  {
  }

  // A shared side is usable when it is already post-delta, or when the other
  // side has no delta to look up in it (the replay of a view's creation).
  ghost predicate Usable(content: ZSet<Row>, own: ZSet<Row>, delta: ZSet<Row>, otherDelta: ZSet<Row>) {
    content == Plus(own, delta) || otherDelta == map[]
  }

  // What a pass emits.
  ghost function Emits(drops: bool, w: int): int {
    if drops then 0 else w
  }

  // One probe pass, split across shards when the node may.
  method RunPass(c: Config, dk: seq<DeltaRow>, view: View, deltaLeft: bool, shardable: bool, shardsCfg: nat,
                 out0: ZSet<Row>) returns (out: ZSet<Row>)
    requires Normal(out0) && ViewOk(view)
    requires deltaLeft ==> forall i :: 0 <= i < |dk| ==> |dk[i].row| == c.leftWidth
    requires TypedView(c, !deltaLeft, view)
    ensures Normal(out)
    ensures forall o {:trigger W(out, o)} ::
              W(out, o) == W(out0, o) + Emits(Drops(shardable, shardsCfg, |dk|, Blind(view)), PassWeight(c, dk, view, deltaLeft, o))
  {
    if shardable {
      out := ShardedProbe(c, dk, view, deltaLeft, shardsCfg, out0);
    } else {
      out := ProbePass(c, dk, view, Serial, deltaLeft, 1, out0);
    }
    forall o
      ensures W(out, o) == W(out0, o) + Emits(Drops(shardable, shardsCfg, |dk|, Blind(view)), PassWeight(c, dk, view, deltaLeft, o))
    {
      assert W(out, o) == W(out0, o) + 1 * PassWeight(c, dk, Reached(view, PassWay(shardable, shardsCfg, |dk|)), deltaLeft, o);
      if Drops(shardable, shardsCfg, |dk|, Blind(view)) {
        DroppedPass(c, dk, view, deltaLeft, o);
      }
    }
  }

  // Threads over a blind side emit nothing.
  lemma {:induction false} DroppedPass(c: Config, dk: seq<DeltaRow>, view: View, deltaLeft: bool, o: Row)
    requires ViewOk(view) && Blind(view)
    ensures PassWeight(c, dk, Reached(view, Threaded), deltaLeft, o) == 0
  {
    if dk != [] {
      DroppedPass(c, dk[..|dk| - 1], view, deltaLeft, o);
      if dk[|dk| - 1].key.Some? {
        BlindReadsNothing(view, dk[|dk| - 1].key.value);
      }
    }
  }

  // Pure inner equi-joins of boxed nodes may split their passes.
  predicate Shardable(c: Config, shardsCfg: nat, n: nat) {
    shardsCfg > 1 && c.residuals == [] && c.joinType.Inner? && !c.PackedOk() && n >= 4096
  }

  // What one pass leaves out.
  ghost function LostPart(c: Config, drops: bool, deltaLeft: bool, delta: ZSet<Row>, other: ZSet<Row>, o: Row): int {
    if drops then ProductWeight(c, deltaLeft, delta, other, o) else 0
  }

  // What a step leaves out: the matches of each delta with a side its
  // threads cannot see.
  ghost function Lost(c: Config, shardsCfg: nat, dl: ZSet<Row>, dr: ZSet<Row>, blindL: bool, blindR: bool,
                      contentL: ZSet<Row>, contentR: ZSet<Row>, o: Row): int
  {
    var shardable := Shardable(c, shardsCfg, |dl| + |dr|);
    LostPart(c, Drops(shardable, shardsCfg, |dl|, blindR), true, dl, contentR, o)
    + LostPart(c, Drops(shardable, shardsCfg, |dr|, blindL), false, dr, contentL, o)
  }

  // Whether any pass of a step is one of those.
  predicate Loses(c: Config, shardsCfg: nat, nl: nat, nr: nat, blindL: bool, blindR: bool) {
    var shardable := Shardable(c, shardsCfg, nl + nr);
    Drops(shardable, shardsCfg, nl, blindR) || Drops(shardable, shardsCfg, nr, blindL)
  }

  // The three probe passes of one step. `left` and `right` are the sides as
  // the passes see them: local ones before this step's delta, shared ones after it.
  method InnerPasses(c: Config, shardsCfg: nat, dl: ZSet<Row>, dr: ZSet<Row>, left: View, right: View,
                     ghost L: ZSet<Row>, ghost R: ZSet<Row>,
                     ghost contentL: ZSet<Row>, ghost contentR: ZSet<Row>) returns (out: ZSet<Row>)
    requires Typed(c, true, dl) && Typed(c, true, contentL)
    requires Indexes(c.leftKeys, c.nullSafe, left, contentL)
    requires Indexes(c.rightKeys, c.nullSafe, right, contentR)
    requires if left.shared then Usable(contentL, L, dl, dr) else contentL == L
    requires if right.shared then Usable(contentR, R, dr, dl) else contentR == R
    ensures Normal(out)
    ensures forall o {:trigger W(out, o)} ::
              W(out, o) == InnerWeight(c, Plus(L, dl), Plus(R, dr), o) - InnerWeight(c, L, R, o)
                - Lost(c, shardsCfg, dl, dr, Blind(left), Blind(right), contentL, contentR, o)
  {
    var kl := MaterializeKeys(c.leftKeys, c.nullSafe, dl);
    var kr := MaterializeKeys(c.rightKeys, c.nullSafe, dr);
    ViewTyped(c, true, left, contentL);
    var shardable := Shardable(c, shardsCfg, |kl| + |kr|);
    var out2 := BothPasses(c, kl, kr, left, right, shardable, shardsCfg);
    var sign := CrossSign(left.shared, right.shared);
    var cross := sign != 0 && kl != [] && kr != [];
    ghost var crossView;
    out, crossView := CrossPass(c, kl, dr, right.store, cross, sign, out2);
    forall o ensures W(out, o) == InnerWeight(c, Plus(L, dl), Plus(R, dr), o) - InnerWeight(c, L, R, o)
                - Lost(c, shardsCfg, dl, dr, Blind(left), Blind(right), contentL, contentR, o)
    {
      ghost var first := Emits(Drops(shardable, shardsCfg, |kl|, Blind(right)), PassWeight(c, kl, right, true, o));
      ghost var second := Emits(Drops(shardable, shardsCfg, |kr|, Blind(left)), PassWeight(c, kr, left, false, o));
      ghost var third := if cross then sign * PassWeight(c, kl, crossView, true, o) else 0;
      assert W(out2, o) == first + second && W(out, o) == W(out2, o) + third;
      PassesMove(c, shardsCfg, kl, kr, dl, dr, left, right, L, R, contentL, contentR, cross, crossView, first, second, o);
    }
  }

  // Each delta against the other side.
  method BothPasses(c: Config, kl: seq<DeltaRow>, kr: seq<DeltaRow>, left: View, right: View, shardable: bool, shardsCfg: nat)
    returns (out: ZSet<Row>)
    requires ViewOk(left) && ViewOk(right) && TypedView(c, true, left)
    requires forall i :: 0 <= i < |kl| ==> |kl[i].row| == c.leftWidth
    ensures Normal(out)
    ensures forall o {:trigger W(out, o)} ::
              W(out, o) == Emits(Drops(shardable, shardsCfg, |kl|, Blind(right)), PassWeight(c, kl, right, true, o))
                + Emits(Drops(shardable, shardsCfg, |kr|, Blind(left)), PassWeight(c, kr, left, false, o))
  {
    var first := RunPass(c, kl, right, true, shardable, shardsCfg, map[]);
    out := RunPass(c, kr, left, false, shardable, shardsCfg, first);
    forall o
      ensures W(out, o) == Emits(Drops(shardable, shardsCfg, |kl|, Blind(right)), PassWeight(c, kl, right, true, o))
                + Emits(Drops(shardable, shardsCfg, |kr|, Blind(left)), PassWeight(c, kr, left, false, o))
    {
      assert W(first, o) == Emits(Drops(shardable, shardsCfg, |kl|, Blind(right)), PassWeight(c, kl, right, true, o));
    }
  }

  // The cross term, when the case calls for one.
  method CrossPass(c: Config, kl: seq<DeltaRow>, dr: ZSet<Row>, like: Store, cross: bool, sign: int, out0: ZSet<Row>)
    returns (out: ZSet<Row>, ghost crossView: View)
    requires Normal(out0) && forall i :: 0 <= i < |kl| ==> |kl[i].row| == c.leftWidth
    ensures Normal(out) && (cross ==> Indexes(c.rightKeys, c.nullSafe, crossView, Plus(map[], dr)))
    ensures forall o {:trigger W(out, o)} ::
              W(out, o) == W(out0, o) + if cross then sign * PassWeight(c, kl, crossView, true, o) else 0
  {
    out, crossView := out0, View(false, like, None);
    if cross {
      var built := CrossIndex(c, dr, like);
      crossView := built;
      out := ProbePass(c, kl, built, Serial, true, sign, out0);
      assert Reached(built, Serial) == built;
    }
  }

  lemma PassesMove(c: Config, shardsCfg: nat, kl: seq<DeltaRow>, kr: seq<DeltaRow>, dl: ZSet<Row>, dr: ZSet<Row>,
                   left: View, right: View, L: ZSet<Row>, R: ZSet<Row>, contentL: ZSet<Row>, contentR: ZSet<Row>,
                   cross: bool, crossView: View, first: int, second: int, o: Row)
    requires Materialized(c.leftKeys, c.nullSafe, kl, dl) && Materialized(c.rightKeys, c.nullSafe, kr, dr)
    requires |kl| == |dl| && |kr| == |dr|
    requires Indexes(c.leftKeys, c.nullSafe, left, contentL) && Indexes(c.rightKeys, c.nullSafe, right, contentR)
    requires if left.shared then Usable(contentL, L, dl, dr) else contentL == L
    requires if right.shared then Usable(contentR, R, dr, dl) else contentR == R
    requires cross ==> Indexes(c.rightKeys, c.nullSafe, crossView, Plus(map[], dr))
    requires !cross ==> CrossSign(left.shared, right.shared) == 0 || kl == [] || kr == []
    requires var shardable := Shardable(c, shardsCfg, |dl| + |dr|);
             && first == Emits(Drops(shardable, shardsCfg, |dl|, Blind(right)), PassWeight(c, kl, right, true, o))
             && second == Emits(Drops(shardable, shardsCfg, |dr|, Blind(left)), PassWeight(c, kr, left, false, o))
    ensures first + second
          + (if cross then CrossSign(left.shared, right.shared) * PassWeight(c, kl, crossView, true, o) else 0)
         == InnerWeight(c, Plus(L, dl), Plus(R, dr), o) - InnerWeight(c, L, R, o)
            - Lost(c, shardsCfg, dl, dr, Blind(left), Blind(right), contentL, contentR, o)
  {
    PassesSum(c, kl, kr, dl, dr, left, right, L, R, contentL, contentR, cross, crossView, o);
    PassIsProduct(c, kl, dl, right, contentR, true, o);
    PassIsProduct(c, kr, dr, left, contentL, false, o);
  }

  // The right delta as a bucket map of its own.
  method CrossIndex(c: Config, dr: ZSet<Row>, like: Store) returns (view: View)
    ensures Indexes(c.rightKeys, c.nullSafe, view, Plus(map[], dr)) && !view.shared
  {
    EmptyRepresents(c.rightKeys, c.nullSafe, false, false, false, like.keyForm, like.rowForm);
    var built := IntegratePlain(c.rightKeys, c.nullSafe, false, false, NewSide(false, like.keyForm, like.rowForm), dr, map[]);
    view := built.view;
  }

  lemma PassesSum(c: Config, kl: seq<DeltaRow>, kr: seq<DeltaRow>, dl: ZSet<Row>, dr: ZSet<Row>,
                  left: View, right: View, L: ZSet<Row>, R: ZSet<Row>,
                  contentL: ZSet<Row>, contentR: ZSet<Row>, cross: bool, crossView: View, o: Row)
    requires Materialized(c.leftKeys, c.nullSafe, kl, dl) && Materialized(c.rightKeys, c.nullSafe, kr, dr)
    requires Indexes(c.leftKeys, c.nullSafe, left, contentL) && Indexes(c.rightKeys, c.nullSafe, right, contentR)
    requires if left.shared then Usable(contentL, L, dl, dr) else contentL == L
    requires if right.shared then Usable(contentR, R, dr, dl) else contentR == R
    requires cross ==> Indexes(c.rightKeys, c.nullSafe, crossView, Plus(map[], dr))
    requires !cross ==> CrossSign(left.shared, right.shared) == 0 || kl == [] || kr == []
    ensures PassWeight(c, kl, right, true, o) + PassWeight(c, kr, left, false, o)
          + (if cross then CrossSign(left.shared, right.shared) * PassWeight(c, kl, crossView, true, o) else 0)
         == InnerWeight(c, Plus(L, dl), Plus(R, dr), o) - InnerWeight(c, L, R, o)
  {
    var sign := CrossSign(left.shared, right.shared);
    PassIsProduct(c, kl, dl, right, contentR, true, o);
    PassIsProduct(c, kr, dr, left, contentL, false, o);
    BilinearDelta(c, L, R, dl, dr, left.shared, right.shared, o);
    UsableProduct(c, contentR, R, dr, dl, right.shared, true, o);
    UsableProduct(c, contentL, L, dl, dr, left.shared, false, o);
    if cross {
      PassIsProduct(c, kl, dl, crossView, Plus(map[], dr), true, o);
      assert W(Plus(map[], dr), RightPart(c, o)) == W(dr, RightPart(c, o));
    } else {
      NoCross(c, kl, kr, dl, dr, sign, o);
    }
  }

  // What a pass reads is, up to an empty delta, the integrated side before
  // (local) or after (shared) the step.
  lemma UsableProduct(c: Config, content: ZSet<Row>, own: ZSet<Row>, delta: ZSet<Row>, otherDelta: ZSet<Row>,
                      shared: bool, deltaLeft: bool, o: Row)
    requires if shared then Usable(content, own, delta, otherDelta) else content == own
    ensures ProductWeight(c, deltaLeft, otherDelta, content, o)
         == ProductWeight(c, deltaLeft, otherDelta, if shared then Plus(own, delta) else own, o)
  {
  }

  lemma NoCross(c: Config, kl: seq<DeltaRow>, kr: seq<DeltaRow>, dl: ZSet<Row>, dr: ZSet<Row>, sign: int, o: Row)
    requires Materialized(c.leftKeys, c.nullSafe, kl, dl) && Materialized(c.rightKeys, c.nullSafe, kr, dr)
    requires sign == 0 || kl == [] || kr == []
    ensures sign * InnerWeight(c, dl, dr, o) == 0
  {
    if kl == [] {
      assert LeftPart(c, o) !in dl;
    }
    if kr == [] {
      assert RightPart(c, o) !in dr;
    }
  }

  // ---- match counts ----

  // Weighted number of residual-passing matches of one row.
  method MatchCount(c: Config, left: bool, row: Row, otherView: View, ghost other: ZSet<Row>) returns (count: int)
    requires Indexes(c.Keys(!left), c.nullSafe, otherView, other) && NonNeg(other)
    ensures count == MatchMass(c, left, row, otherView)
    ensures count >= 0
    ensures count > 0 <==> Matched(c, left, row, other)
  {
    count := 0;
    var key := KeyOf(c, left, row);
    MatchMassSign(c, left, row, otherView, other);
    if key.None? {
      return;
    }
    var bucket := ProbeSide(otherView, key.value);
    ReadNormal(otherView, key.value);
    var p := o => MatchingPair(c, left, row, o);
    var todo := bucket.Keys;
    assert bucket - todo == map[];
    while todo != {}
      invariant todo <= bucket.Keys
      invariant count == Mass(bucket - todo, p)
      decreases todo
    {
      var o :| o in todo;
      MassStep(bucket, todo, o, p);
      if MatchingPair(c, left, row, o) {
        count := count + bucket[o];
      }
      todo := todo - {o};
    }
    assert bucket - {} == bucket;
  }

  ghost function MatchMass(c: Config, left: bool, row: Row, otherView: View): int {
    var key := KeyOf(c, left, row);
    if key.None? then 0 else Mass(Read(otherView, key.value), o => MatchingPair(c, left, row, o))
  }

  lemma MatchMassSign(c: Config, left: bool, row: Row, otherView: View, other: ZSet<Row>)
    requires Indexes(c.Keys(!left), c.nullSafe, otherView, other) && NonNeg(other)
    ensures MatchMass(c, left, row, otherView) >= 0
    ensures MatchMass(c, left, row, otherView) > 0 <==> Matched(c, left, row, other)
  {
    var key := KeyOf(c, left, row);
    if key.Some? {
      var bucket := Read(otherView, key.value);
      var p := o => MatchingPair(c, left, row, o);
      forall o ensures W(bucket, o) == if KeyOf(c, !left, o) == key then W(other, o) else 0 {}
      forall o | o in bucket && p(o) ensures bucket[o] >= 0 {
        assert W(bucket, o) >= 0 && W(other, o) >= 0;
      }
      MassSign(bucket, p);
      if o :| o in other && other[o] > 0 && MatchesFrom(c, left, row, o) {
        assert W(bucket, o) == W(other, o);
        assert o in bucket && p(o) && bucket[o] > 0;
      }
      if o :| o in bucket && p(o) && bucket[o] > 0 {
        assert W(bucket, o) == W(other, o);
        assert o in other && other[o] > 0 && MatchesFrom(c, left, row, o);
      }
    }
  }

  // ---- outer-join pads ----

  // The pads of the side `left` as they must have been emitted.
  ghost predicate PadsExact(c: Config, left: bool, pads: ZSet<Row>, own: ZSet<Row>, other: ZSet<Row>) {
    forall row {:trigger W(pads, row)} :: W(pads, row) == PadWeight(c, left, row, own, other)
  }

  ghost function PadPart(c: Config, left: bool, own: ZSet<Row>, other: ZSet<Row>, o: Row): int {
    if IsPad(c, left, o) then PadWeight(c, left, Preserved(c, left, o), own, other) else 0
  }

  // Rows of one side sharing an equi key with some row of the other side's delta.
  ghost predicate SharesKey(c: Config, left: bool, row: Row, ownView: View, otherDelta: ZSet<Row>) {
    exists o :: o in otherDelta && KeyOf(c, !left, o).Some? && row in Read(ownView, KeyOf(c, !left, o).value)
  }

  // The rows whose pad (or mark) may have changed.
  method Affected(c: Config, left: bool, ownDelta: ZSet<Row>, otherDelta: ZSet<Row>, ownView: View)
    returns (affected: set<Row>)
    requires ViewOk(ownView)
    ensures forall row :: row in affected <==> row in ownDelta || SharesKey(c, left, row, ownView, otherDelta)
  {
    affected := ownDelta.Keys;
    var seenKeys: set<Row> := {};
    var todo := otherDelta.Keys;
    while todo != {}
      invariant todo <= otherDelta.Keys
      invariant forall row :: row in affected ==> row in ownDelta || SharesKey(c, left, row, ownView, otherDelta)
      invariant ownDelta.Keys <= affected
      invariant forall k :: k in seenKeys ==> Read(ownView, k).Keys <= affected
      invariant forall o :: o in otherDelta && o !in todo && KeyOf(c, !left, o).Some? ==> KeyOf(c, !left, o).value in seenKeys
      decreases todo
    {
      var o :| o in todo;
      todo := todo - {o};
      var key := KeyOf(c, !left, o);
      if key.None? || key.value in seenKeys {
        continue;
      }
      seenKeys := seenKeys + {key.value};
      var bucket := ProbeSide(ownView, key.value);
      affected := affected + bucket.Keys;
    }
  }

  lemma MatchSharesKey(c: Config, left: bool, row: Row, o: Row, own: ZSet<Row>, ownView: View, otherDelta: ZSet<Row>)
    requires Indexes(c.Keys(left), c.nullSafe, ownView, own)
    requires W(own, row) > 0 && o in otherDelta && MatchesFrom(c, left, row, o)
    ensures SharesKey(c, left, row, ownView, otherDelta)
  {
    var k := KeyOf(c, !left, o).value;
    assert W(Read(ownView, k), row) == W(own, row);
    assert row in Read(ownView, k);
  }

  // A row outside that set keeps its match status.
  lemma UnaffectedMatch(c: Config, left: bool, row: Row, own: ZSet<Row>, ownView: View,
                        other: ZSet<Row>, otherDelta: ZSet<Row>)
    requires Indexes(c.Keys(left), c.nullSafe, ownView, own)
    requires W(own, row) > 0
    ensures SharesKey(c, left, row, ownView, otherDelta)
         || Matched(c, left, row, Plus(other, otherDelta)) == Matched(c, left, row, other)
  {
    if o :| o in otherDelta && MatchesFrom(c, left, row, o) {
      MatchSharesKey(c, left, row, o, own, ownView, otherDelta);
    } else {
      forall o | MatchesFrom(c, left, row, o) ensures W(Plus(other, otherDelta), o) == W(other, o) {}
      if o :| o in other && other[o] > 0 && MatchesFrom(c, left, row, o) {
        assert o in Plus(other, otherDelta) && Plus(other, otherDelta)[o] > 0;
      }
      if o :| o in Plus(other, otherDelta) && Plus(other, otherDelta)[o] > 0 && MatchesFrom(c, left, row, o) {
        assert o in other && other[o] > 0;
      }
    }
  }

  lemma UnaffectedPad(c: Config, left: bool, row: Row, own: ZSet<Row>, ownDelta: ZSet<Row>, ownView: View,
                      other: ZSet<Row>, otherDelta: ZSet<Row>)
    requires Indexes(c.Keys(left), c.nullSafe, ownView, Plus(own, ownDelta))
    requires row !in ownDelta && !SharesKey(c, left, row, ownView, otherDelta)
    ensures PadWeight(c, left, row, Plus(own, ownDelta), Plus(other, otherDelta)) == PadWeight(c, left, row, own, other)
  {
    assert W(Plus(own, ownDelta), row) == W(own, row);
    if W(own, row) > 0 {
      UnaffectedMatch(c, left, row, Plus(own, ownDelta), ownView, other, otherDelta);
    }
  }

  // Progress of the reconciliation loop: rows outside `todo` are settled.
  ghost predicate PadProgress(c: Config, left: bool, todo: set<Row>, pads: ZSet<Row>, out: ZSet<Row>, out0: ZSet<Row>,
                              own0: ZSet<Row>, other0: ZSet<Row>, own: ZSet<Row>, other: ZSet<Row>)
  {
    && Normal(pads) && Normal(out)
    && (forall row {:trigger W(pads, row)} :: W(pads, row) ==
          if row in todo then PadWeight(c, left, row, own0, other0) else PadWeight(c, left, row, own, other))
    && (forall o {:trigger W(out, o)} :: W(out, o) == W(out0, o) +
          if Preserved(c, left, o) in todo then 0
          else PadPart(c, left, own, other, o) - PadPart(c, left, own0, other0, o))
  }

  lemma PadStep(c: Config, left: bool, todo: set<Row>, row: Row,
                pads: ZSet<Row>, out: ZSet<Row>, pads': ZSet<Row>, out': ZSet<Row>, out0: ZSet<Row>,
                own0: ZSet<Row>, other0: ZSet<Row>, own: ZSet<Row>, other: ZSet<Row>, desired: int)
    requires PadProgress(c, left, todo, pads, out, out0, own0, other0, own, other)
    requires row in todo && desired == PadWeight(c, left, row, own, other)
    requires left ==> |row| == c.leftWidth
    requires pads' == WithPad(pads, row, desired)
    requires out' == Insert(out, PadRow(c, left, row), desired - W(pads, row))
    ensures PadProgress(c, left, todo - {row}, pads', out', out0, own0, other0, own, other)
  {
    forall o ensures W(out', o) == W(out0, o) +
          if Preserved(c, left, o) in todo - {row} then 0
          else PadPart(c, left, own, other, o) - PadPart(c, left, own0, other0, o)
    {
      PadRowInjective(c, left, row, o);
      assert W(out, o) == W(out0, o) + if Preserved(c, left, o) in todo then 0
          else PadPart(c, left, own, other, o) - PadPart(c, left, own0, other0, o);
    }
    forall r ensures W(pads', r) ==
      if r in todo - {row} then PadWeight(c, left, r, own0, other0) else PadWeight(c, left, r, own, other)
    {
      assert W(pads, r) == if r in todo then PadWeight(c, left, r, own0, other0) else PadWeight(c, left, r, own, other);
    }
  }

  lemma PadStart(c: Config, left: bool, affected: set<Row>, pads: ZSet<Row>, out0: ZSet<Row>,
                 own0: ZSet<Row>, other0: ZSet<Row>, own: ZSet<Row>, other: ZSet<Row>)
    requires Normal(pads) && Normal(out0)
    requires PadsExact(c, left, pads, own0, other0)
    requires forall row :: row !in affected ==> PadWeight(c, left, row, own, other) == PadWeight(c, left, row, own0, other0)
    ensures PadProgress(c, left, affected, pads, out0, out0, own0, other0, own, other)
  {
    forall o | Preserved(c, left, o) !in affected
      ensures PadPart(c, left, own, other, o) == PadPart(c, left, own0, other0, o)
    {
      assert PadWeight(c, left, Preserved(c, left, o), own, other)
          == PadWeight(c, left, Preserved(c, left, o), own0, other0);
    }
  }

  // The pad weight a row has to have.
  method DesiredPad(c: Config, left: bool, row: Row, ownSide: Side, otherView: View, ghost own: ZSet<Row>, ghost other: ZSet<Row>)
    returns (desired: int)
    requires c.Pads(left) && Weighs(ownSide, own)
    requires Indexes(c.Keys(!left), c.nullSafe, otherView, other) && NonNeg(other)
    ensures desired == PadWeight(c, left, row, own, other)
  {
    var total := OwnRowWeight(ownSide, row, own);
    var count := MatchCount(c, left, row, otherView, other);
    desired := if total > 0 && count == 0 then total else 0;
  }

  // Bring the pad of one row to its desired weight and emit the difference.
  method MovePad(c: Config, left: bool, row: Row, desired: int, pads0: ZSet<Row>, out0: ZSet<Row>)
    returns (pads: ZSet<Row>, out: ZSet<Row>)
    requires Normal(pads0) && Normal(out0)
    ensures pads == WithPad(pads0, row, desired)
    ensures out == Insert(out0, PadRow(c, left, row), desired - W(pads0, row))
  {
    var current := W(pads0, row);
    pads, out := pads0, out0;
    if desired == current {
      assert Insert(out0, PadRow(c, left, row), 0) == out0;
      return;
    }
    out := Insert(out, PadRow(c, left, row), desired - current);
    pads := WithPad(pads, row, desired);
  }

  method ReconcileRow(c: Config, left: bool, row: Row, ownSide: Side, otherView: View,
                      pads0: ZSet<Row>, out0: ZSet<Row>, ghost own: ZSet<Row>, ghost other: ZSet<Row>)
    returns (pads: ZSet<Row>, out: ZSet<Row>)
    requires c.Pads(left) && Normal(pads0) && Normal(out0) && Weighs(ownSide, own)
    requires Indexes(c.Keys(!left), c.nullSafe, otherView, other) && NonNeg(other)
    ensures pads == WithPad(pads0, row, PadWeight(c, left, row, own, other))
    ensures out == Insert(out0, PadRow(c, left, row), PadWeight(c, left, row, own, other) - W(pads0, row))
  {
    var desired := DesiredPad(c, left, row, ownSide, otherView, own, other);
    pads, out := MovePad(c, left, row, desired, pads0, out0);
  }

  function WithPad(pads: ZSet<Row>, row: Row, desired: int): ZSet<Row> {
    if desired == 0 then pads - {row} else pads[row := desired]
  }

  // One pass over the affected rows, one ReconcileRow each.
  method ReconcileRows(c: Config, left: bool, affected: set<Row>, ownSide: Side, otherView: View,
                       pads0: ZSet<Row>, out0: ZSet<Row>,
                       ghost own0: ZSet<Row>, ghost other0: ZSet<Row>, ghost own: ZSet<Row>, ghost other: ZSet<Row>)
    returns (pads: ZSet<Row>, out: ZSet<Row>)
    requires c.Pads(left) && Weighs(ownSide, own)
    requires left ==> forall row :: row in affected ==> |row| == c.leftWidth
    requires Indexes(c.Keys(!left), c.nullSafe, otherView, other) && NonNeg(other)
    requires PadProgress(c, left, affected, pads0, out0, out0, own0, other0, own, other)
    ensures PadProgress(c, left, {}, pads, out, out0, own0, other0, own, other)
  {
    pads, out := pads0, out0;
    var todo := affected;
    while todo != {}
      invariant todo <= affected
      invariant PadProgress(c, left, todo, pads, out, out0, own0, other0, own, other)
      decreases todo
    {
      var row :| row in todo;
      var pads1, out1 := ReconcileRow(c, left, row, ownSide, otherView, pads, out, own, other);
      PadStep(c, left, todo, row, pads, out, pads1, out1, out0, own0, other0, own, other,
              PadWeight(c, left, row, own, other));
      pads, out := pads1, out1;
      todo := todo - {row};
    }
  }

  method ReconcilePads(c: Config, left: bool, ownDelta: ZSet<Row>, otherDelta: ZSet<Row>,
                       ownSide: Side, otherView: View, pads0: ZSet<Row>, out0: ZSet<Row>,
                       ghost own: ZSet<Row>, ghost other: ZSet<Row>)
    returns (pads: ZSet<Row>, out: ZSet<Row>)
    requires c.Pads(left)
    requires Normal(pads0) && Normal(out0) && PadsExact(c, left, pads0, own, other)
    requires Indexes(c.Keys(left), c.nullSafe, ownSide.view, Plus(own, ownDelta))
    requires Weighs(ownSide, Plus(own, ownDelta))
    requires Indexes(c.Keys(!left), c.nullSafe, otherView, Plus(other, otherDelta))
    requires NonNeg(Plus(other, otherDelta))
    requires Typed(c, left, ownDelta) && Typed(c, left, own)
    ensures Normal(pads) && Normal(out)
    ensures PadsExact(c, left, pads, Plus(own, ownDelta), Plus(other, otherDelta))
    ensures forall o {:trigger W(out, o)} :: W(out, o) == W(out0, o)
              + PadPart(c, left, Plus(own, ownDelta), Plus(other, otherDelta), o) - PadPart(c, left, own, other, o)
  {
    var affected := Affected(c, left, ownDelta, otherDelta, ownSide.view);
    ghost var own', other' := Plus(own, ownDelta), Plus(other, otherDelta);
    AffectedSuffices(c, left, affected, ownDelta, otherDelta, ownSide.view, pads0, out0, own, other);
    pads, out := ReconcileRows(c, left, affected, ownSide, otherView, pads0, out0, own, other, own', other');
  }

  lemma AffectedSuffices(c: Config, left: bool, affected: set<Row>, ownDelta: ZSet<Row>, otherDelta: ZSet<Row>,
                         ownView: View, pads: ZSet<Row>, out: ZSet<Row>, own: ZSet<Row>, other: ZSet<Row>)
    requires forall row :: row in affected <==> row in ownDelta || SharesKey(c, left, row, ownView, otherDelta)
    requires Indexes(c.Keys(left), c.nullSafe, ownView, Plus(own, ownDelta))
    requires Normal(pads) && Normal(out) && PadsExact(c, left, pads, own, other)
    requires Typed(c, left, ownDelta) && Typed(c, left, own)
    ensures left ==> forall row :: row in affected ==> |row| == c.leftWidth
    ensures PadProgress(c, left, affected, pads, out, out, own, other, Plus(own, ownDelta), Plus(other, otherDelta))
  {
    ViewTyped(c, left, ownView, Plus(own, ownDelta));
    forall row | row !in affected
      ensures PadWeight(c, left, row, Plus(own, ownDelta), Plus(other, otherDelta)) == PadWeight(c, left, row, own, other)
    {
      UnaffectedPad(c, left, row, own, ownDelta, ownView, other, otherDelta);
    }
    PadStart(c, left, affected, pads, out, own, other, Plus(own, ownDelta), Plus(other, otherDelta));
  }

  // ---- three-valued marks ----

  type MarkState = map<Row, (Value, int)>

  // Exactly the left rows of positive weight, with their mark and weight.
  ghost predicate MarksExact(c: Config, marks: MarkState, L: ZSet<Row>, R: ZSet<Row>) {
    && (forall row :: row in marks <==> W(L, row) > 0)
    && (forall row :: row in marks ==> marks[row] == (MarkOf(c, row, R), W(L, row)))
  }

  lemma CountersSign(c: Config, total: int, nulls: int, R: ZSet<Row>)
    requires NonNeg(R)
    requires total == RowMass(R) && nulls == NullMass(c.rightKeys, c.nullSafe, R)
    ensures total > 0 <==> NonEmpty(R)
    ensures nulls > 0 <==> SomeNullKey(c, R)
  {
    forall r | r in R ensures R[r] >= 0 {
      assert W(R, r) >= 0;
    }
    MassSign(R, _ => true);
    MassSign(R, r => EvalKey(c.rightKeys, c.nullSafe, r).None?);
    if SomeNullKey(c, R) {
      var r :| r in R && R[r] > 0 && HasNullKey(c, false, r);
      assert EvalKey(c.rightKeys, c.nullSafe, r).None?;
    }
  }

  // Total and NULL-key weight of one delta.
  method CountDelta(keys: KeyExprs, nullSafe: bool, delta: ZSet<Row>) returns (total: int, nulls: int)
    requires Normal(delta)
    ensures total == RowMass(delta) && nulls == NullMass(keys, nullSafe, delta)
  {
    total, nulls := 0, 0;
    var todo := delta.Keys;
    assert delta - todo == map[];
    while todo != {}
      invariant todo <= delta.Keys
      invariant total == RowMass(delta - todo) && nulls == NullMass(keys, nullSafe, delta - todo)
      decreases todo
    {
      var row :| row in todo;
      MassStep(delta, todo, row, _ => true);
      MassStep(delta, todo, row, r => EvalKey(keys, nullSafe, r).None?);
      total := total + delta[row];
      if EvalKey(keys, nullSafe, row).None? {
        nulls := nulls + delta[row];
      }
      todo := todo - {row};
    }
    assert delta - {} == delta;
  }

  // A shared right side is post-delta: its counters before the step are the
  // ones after it minus this step's contribution.
  lemma CountersBefore(c: Config, total: int, nulls: int, dTotal: int, dNulls: int, R: ZSet<Row>, dr: ZSet<Row>)
    requires total == RowMass(Plus(R, dr)) && nulls == NullMass(c.rightKeys, c.nullSafe, Plus(R, dr))
    requires dTotal == RowMass(dr) && dNulls == NullMass(c.rightKeys, c.nullSafe, dr)
    ensures total - dTotal == RowMass(R) && nulls - dNulls == NullMass(c.rightKeys, c.nullSafe, R)
  {
    MassPlus(R, dr, _ => true);
    MassPlus(R, dr, r => EvalKey(c.rightKeys, c.nullSafe, r).None?);
  }

  method MarkValue(c: Config, row: Row, right: Side, ghost R: ZSet<Row>) returns (mark: Value)
    requires Represents(c.rightKeys, c.nullSafe, false, true, right, R) && NonNeg(R)
    ensures mark == MarkOf(c, row, R)
  {
    CountersSign(c, right.total, right.nulls, R);
    var count := MatchCount(c, true, row, right.view, R);
    if count > 0 {
      return TRUE;
    }
    if right.total <= 0 {
      return FALSE;
    }
    if KeyOf(c, true, row).None? || right.nulls > 0 {
      return Null;
    }
    return FALSE;
  }

  // Progress of the mark loop: rows outside `todo` are settled.
  ghost predicate MarkProgress(c: Config, todo: set<Row>, marks: MarkState, out: ZSet<Row>, out0: ZSet<Row>,
                               L0: ZSet<Row>, R0: ZSet<Row>, L: ZSet<Row>, R: ZSet<Row>)
  {
    && Normal(out)
    && (forall row :: row in marks <==> (if row in todo then W(L0, row) > 0 else W(L, row) > 0))
    && (forall row :: row in marks ==>
          marks[row] == (if row in todo then (MarkOf(c, row, R0), W(L0, row)) else (MarkOf(c, row, R), W(L, row))))
    && (forall o {:trigger W(out, o)} :: W(out, o) == W(out0, o) +
          if |o| > 0 && o[..|o|-1] !in todo then MarkWeight(c, L, R, o) - MarkWeight(c, L0, R0, o) else 0)
  }

  // Replace the emitted mark of one row.
  method RemarkRow(row: Row, weight: int, mark: Value, marks0: MarkState, out0: ZSet<Row>)
    returns (marks: MarkState, out: ZSet<Row>)
    requires Normal(out0)
    requires row in marks0 ==> marks0[row].1 > 0
    ensures marks == if weight > 0 then marks0[row := (mark, weight)] else marks0 - {row}
    ensures Normal(out)
    ensures forall o {:trigger W(out, o)} :: W(out, o) == W(out0, o)
              + (if weight > 0 && o == row + [mark] then weight else 0)
              - (if row in marks0 && o == row + [marks0[row].0] then marks0[row].1 else 0)
  {
    marks, out := marks0, out0;
    if row in marks {
      var (oldMark, oldWeight) := marks[row];
      if weight > 0 && oldWeight == weight && oldMark == mark {
        return;
      }
      out := Insert(out, row + [oldMark], -oldWeight);
      marks := marks - {row};
    }
    if weight > 0 {
      out := Insert(out, row + [mark], weight);
      marks := marks[row := (mark, weight)];
    }
  }

  lemma MarkStep(c: Config, todo: set<Row>, row: Row, mark: Value, marks: MarkState, out: ZSet<Row>,
                 marks': MarkState, out': ZSet<Row>, out0: ZSet<Row>,
                 L0: ZSet<Row>, R0: ZSet<Row>, L: ZSet<Row>, R: ZSet<Row>)
    requires MarkProgress(c, todo, marks, out, out0, L0, R0, L, R)
    requires row in todo && (W(L, row) > 0 ==> mark == MarkOf(c, row, R))
    requires marks' == if W(L, row) > 0 then marks[row := (mark, W(L, row))] else marks - {row}
    requires Normal(out')
    requires forall o {:trigger W(out', o)} :: W(out', o) == W(out, o)
              + (if W(L, row) > 0 && o == row + [mark] then W(L, row) else 0)
              - (if row in marks && o == row + [marks[row].0] then marks[row].1 else 0)
    ensures MarkProgress(c, todo - {row}, marks', out', out0, L0, R0, L, R)
  {
    forall o ensures W(out', o) == W(out0, o) +
      if |o| > 0 && o[..|o|-1] !in todo - {row} then MarkWeight(c, L, R, o) - MarkWeight(c, L0, R0, o) else 0
    {
      MarkStepAt(c, todo, row, mark, marks, out, out', out0, L0, R0, L, R, o);
    }
  }

  lemma MarkRowSplits(row: Row, mark: Value, o: Row)
    ensures o == row + [mark] <==> |o| > 0 && o[..|o|-1] == row && o[|o|-1] == mark
  {
    if |o| > 0 {
      assert o == o[..|o|-1] + [o[|o|-1]];
    }
  }

  lemma MarkStepAt(c: Config, todo: set<Row>, row: Row, mark: Value, marks: MarkState, out: ZSet<Row>,
                   out': ZSet<Row>, out0: ZSet<Row>,
                   L0: ZSet<Row>, R0: ZSet<Row>, L: ZSet<Row>, R: ZSet<Row>, o: Row)
    requires row in todo && (W(L, row) > 0 ==> mark == MarkOf(c, row, R))
    requires row in marks <==> W(L0, row) > 0
    requires row in marks ==> marks[row] == (MarkOf(c, row, R0), W(L0, row))
    requires W(out, o) == W(out0, o) +
      if |o| > 0 && o[..|o|-1] !in todo then MarkWeight(c, L, R, o) - MarkWeight(c, L0, R0, o) else 0
    requires W(out', o) == W(out, o)
              + (if W(L, row) > 0 && o == row + [mark] then W(L, row) else 0)
              - (if row in marks && o == row + [marks[row].0] then marks[row].1 else 0)
    ensures W(out', o) == W(out0, o) +
      if |o| > 0 && o[..|o|-1] !in todo - {row} then MarkWeight(c, L, R, o) - MarkWeight(c, L0, R0, o) else 0
  {
    MarkRowSplits(row, mark, o);
    if row in marks {
      MarkRowSplits(row, marks[row].0, o);
    }
  }

  method RemarkRows(c: Config, affected: set<Row>, weights: ZSet<Row>, right: Side, marks0: MarkState, out0: ZSet<Row>,
                    ghost L0: ZSet<Row>, ghost R0: ZSet<Row>, ghost R: ZSet<Row>)
    returns (marks: MarkState, out: ZSet<Row>)
    requires Represents(c.rightKeys, c.nullSafe, false, true, right, R) && NonNeg(R)
    requires MarkProgress(c, affected, marks0, out0, out0, L0, R0, weights, R)
    ensures MarkProgress(c, {}, marks, out, out0, L0, R0, weights, R)
  {
    marks, out := marks0, out0;
    var todo := affected;
    while todo != {}
      invariant todo <= affected
      invariant MarkProgress(c, todo, marks, out, out0, L0, R0, weights, R)
      decreases todo
    {
      var row :| row in todo;
      var weight := W(weights, row);
      var mark := FALSE;
      if weight > 0 {
        mark := MarkValue(c, row, right, R);
      }
      var marks1, out1 := RemarkRow(row, weight, mark, marks, out);
      MarkStep(c, todo, row, mark, marks, out, marks1, out1, out0, L0, R0, weights, R);
      marks, out := marks1, out1;
      todo := todo - {row};
    }
  }

  // The rows outside the visited set keep their weight and mark.
  lemma UnaffectedMark(c: Config, row: Row, L: ZSet<Row>, dl: ZSet<Row>, leftView: View, R: ZSet<Row>, dr: ZSet<Row>)
    requires Indexes(c.leftKeys, c.nullSafe, leftView, Plus(L, dl))
    requires row !in dl && !SharesKey(c, true, row, leftView, dr)
    requires NonEmpty(R) == NonEmpty(Plus(R, dr)) && SomeNullKey(c, R) == SomeNullKey(c, Plus(R, dr))
    ensures W(Plus(L, dl), row) == W(L, row)
    ensures W(L, row) > 0 ==> MarkOf(c, row, Plus(R, dr)) == MarkOf(c, row, R)
  {
    if W(L, row) > 0 {
      assert W(Plus(L, dl), row) == W(L, row);
      UnaffectedMatch(c, true, row, Plus(L, dl), leftView, R, dr);
    }
  }

  lemma MarkStart(c: Config, affected: set<Row>, marks: MarkState, out0: ZSet<Row>,
                  L0: ZSet<Row>, R0: ZSet<Row>, L: ZSet<Row>, R: ZSet<Row>)
    requires Normal(out0) && MarksExact(c, marks, L0, R0)
    requires forall row :: row !in affected ==>
               (W(L, row) > 0 <==> W(L0, row) > 0) &&
               (W(L, row) > 0 ==> W(L, row) == W(L0, row) && MarkOf(c, row, R) == MarkOf(c, row, R0))
    ensures MarkProgress(c, affected, marks, out0, out0, L0, R0, L, R)
  {
    forall o | |o| > 0 && o[..|o|-1] !in affected ensures MarkWeight(c, L, R, o) == MarkWeight(c, L0, R0, o) {
      assert W(L, o[..|o|-1]) > 0 <==> W(L0, o[..|o|-1]) > 0;
    }
  }

  // When emptiness or NULL presence of the right side flips, every row is
  // visited; otherwise the rows a delta may concern.
  method MarkAffected(c: Config, dl: ZSet<Row>, dr: ZSet<Row>, left: Side, marks: MarkState, categoryChanged: bool,
                      ghost L: ZSet<Row>, ghost R: ZSet<Row>) returns (affected: set<Row>)
    requires Indexes(c.leftKeys, c.nullSafe, left.view, Plus(L, dl)) && left.weights == Plus(L, dl)
    requires NonNeg(L) && NonNeg(Plus(L, dl))
    requires categoryChanged == (NonEmpty(R) != NonEmpty(Plus(R, dr)) || SomeNullKey(c, R) != SomeNullKey(c, Plus(R, dr)))
    requires MarksExact(c, marks, L, R)
    ensures forall row :: row !in affected ==>
               (W(Plus(L, dl), row) > 0 <==> W(L, row) > 0) &&
               (W(Plus(L, dl), row) > 0 ==> W(Plus(L, dl), row) == W(L, row)
                                             && MarkOf(c, row, Plus(R, dr)) == MarkOf(c, row, R))
  {
    if categoryChanged {
      affected := left.weights.Keys + marks.Keys;
    } else {
      affected := Affected(c, true, dl, dr, left.view);
      forall row | row !in affected
        ensures W(Plus(L, dl), row) == W(L, row)
        ensures W(L, row) > 0 ==> MarkOf(c, row, Plus(R, dr)) == MarkOf(c, row, R)
      {
        UnaffectedMark(c, row, L, dl, left.view, R, dr);
      }
    }
  }

  method ReconcileMarks(c: Config, dl: ZSet<Row>, dr: ZSet<Row>, left: Side, right: Side, marks0: MarkState,
                        categoryChanged: bool, ghost L: ZSet<Row>, ghost R: ZSet<Row>)
    returns (marks: MarkState, out: ZSet<Row>)
    requires Represents(c.leftKeys, c.nullSafe, true, false, left, Plus(L, dl)) && !PackedHere(left)
    requires Represents(c.rightKeys, c.nullSafe, false, true, right, Plus(R, dr))
    requires NonNeg(L) && NonNeg(Plus(L, dl)) && NonNeg(Plus(R, dr))
    requires categoryChanged == (NonEmpty(R) != NonEmpty(Plus(R, dr)) || SomeNullKey(c, R) != SomeNullKey(c, Plus(R, dr)))
    requires MarksExact(c, marks0, L, R)
    ensures MarksExact(c, marks, Plus(L, dl), Plus(R, dr))
    ensures Normal(out)
    ensures forall o {:trigger W(out, o)} ::
              W(out, o) == MarkWeight(c, Plus(L, dl), Plus(R, dr), o) - MarkWeight(c, L, R, o)
  {
    var affected := MarkAffected(c, dl, dr, left, marks0, categoryChanged, L, R);
    MarkStart(c, affected, marks0, map[], L, R, Plus(L, dl), Plus(R, dr));
    marks, out := RemarkRows(c, affected, left.weights, right, marks0, map[], L, R, Plus(R, dr));
  }

  // ---- one step ----

  // One step without marks: the joined table moves from (L, R) to (L+dl, R+dr).
  lemma JoinedDelta(c: Config, L: ZSet<Row>, R: ZSet<Row>, L': ZSet<Row>, R': ZSet<Row>, o: Row)
    ensures JoinedWeight(c, L', R', o) - JoinedWeight(c, L, R, o)
         == InnerWeight(c, L', R', o) - InnerWeight(c, L, R, o)
          + (PadPart(c, true, L', R', o) - PadPart(c, true, L, R, o))
          + (PadPart(c, false, R', L', o) - PadPart(c, false, R, L, o))
  {
  }

  // What a node keeps between steps: its local indexes and totals, the
  // currently emitted pad weights, and the emitted mark per left row.
  datatype NodeState = NodeState(left: Side, right: Side, leftPad: ZSet<Row>, rightPad: ZSet<Row>, marks: MarkState)

  function EmptyState(c: Config): NodeState {
    NodeState(NewSide(c.PackedOk(), c.keyForm, c.leftForm), NewSide(c.PackedOk(), c.keyForm, c.rightForm), map[], map[], map[])
  }

  // A side kept by the node itself, packed if the node's types allow it.
  ghost predicate LocalOk(c: Config, left: bool, side: Side) {
    && !side.view.shared && side.view.proj.None? && side.view.store.packed == c.PackedOk()
    && side.view.store.keyForm == c.keyForm && side.view.store.rowForm == c.RowForm(left)
    && Normal(side.newTotals) && T.TotalsOk(side.flatTotals) && StoreOk(side.view.store)
  }

  // The operator state that belongs to integrated inputs (L, R).
  ghost predicate StateFor(c: Config, sharedL: bool, sharedR: bool, st: NodeState, L: ZSet<Row>, R: ZSet<Row>) {
    && Normal(L) && Normal(R) && NonNeg(L) && NonNeg(R) && Typed(c, true, L)
    && LocalOk(c, true, st.left) && LocalOk(c, false, st.right)
    && (!sharedL ==> Represents(c.leftKeys, c.nullSafe, c.PadsLeft() || c.joinType.Mark?, false, st.left, L))
    && (!sharedR ==> Represents(c.rightKeys, c.nullSafe, c.PadsRight(), c.joinType.Mark?, st.right, R))
    && (if c.joinType.Mark? then MarksExact(c, st.marks, L, R)
        else Normal(st.leftPad) && Normal(st.rightPad)
             && PadsExact(c, true, st.leftPad, L, R) && PadsExact(c, false, st.rightPad, R, L))
  }

  ghost predicate MovesTo(c: Config, output: ZSet<Row>, L: ZSet<Row>, R: ZSet<Row>, L': ZSet<Row>, R': ZSet<Row>) {
    Normal(output) &&
    forall o {:trigger W(output, o)} :: W(output, o) == SpecWeight(c, L', R', o) - SpecWeight(c, L, R, o)
  }

  lemma NothingMoves(c: Config, L: ZSet<Row>, R: ZSet<Row>)
    requires Normal(L) && Normal(R)
    ensures Plus(L, map[]) == L && Plus(R, map[]) == R
    ensures MovesTo(c, map[], L, R, L, R)
  {
    PlusNothing(L);
    PlusNothing(R);
  }

  // A shared side must be the arrangement for this side's keys, track what
  // the join type needs, and be post-delta.
  ghost predicate Serves(c: Config, left: bool, keys: KeyExprs, nullSafe: bool, trackWeights: bool, trackCounters: bool,
                         proj: Option<seq<nat>>, seen: ZSet<Row>, own: ZSet<Row>, delta: ZSet<Row>, otherDelta: ZSet<Row>)
  {
    && KeyedThrough(keys, proj, c.Keys(left)) && nullSafe == c.nullSafe && Typed(c, left, seen)
    && (c.Pads(left) || (left && c.joinType.Mark?) ==> trackWeights) && (trackWeights ==> proj.None?)
    && (!left && c.joinType.Mark? ==> trackCounters)
    && if c.joinType.Inner? then Usable(seen, own, delta, otherDelta) else seen == Plus(own, delta)
  }

  lemma ServedSide(c: Config, left: bool, keys: KeyExprs, nullSafe: bool, trackWeights: bool, trackCounters: bool,
                   proj: Option<seq<nat>>, side: Side, content: ZSet<Row>, own: ZSet<Row>, delta: ZSet<Row>, otherDelta: ZSet<Row>)
    requires Represents(keys, nullSafe, trackWeights, trackCounters, side, content)
    requires side.view.shared && side.view.proj.None?
    requires Serves(c, left, keys, nullSafe, trackWeights, trackCounters, proj, Shown(proj, content), own, delta, otherDelta)
    ensures Indexes(c.Keys(left), c.nullSafe, ThroughProjection(side, proj).view, Shown(proj, content))
    ensures Usable(Shown(proj, content), own, delta, otherDelta) && Typed(c, left, Shown(proj, content))
    ensures !c.joinType.Inner? ==> SeenReady(c, left, Some(ThroughProjection(side, proj)), side, own, delta)
  {
    ShownRepresents(keys, proj, c.Keys(left), nullSafe, trackWeights, trackCounters, side, content);
  }

  // A side as the probes see it: the shared arrangement's or the local one.
  function Seen(shared: Option<Side>, local: Side): Side {
    if shared.Some? then shared.value else local
  }

  ghost predicate SeenReady(c: Config, left: bool, shared: Option<Side>, local: Side, own: ZSet<Row>, delta: ZSet<Row>) {
    var weighted := c.Pads(left) || (left && c.joinType.Mark?);
    var counted := !left && c.joinType.Mark?;
    && Represents(c.Keys(left), c.nullSafe, weighted, counted, Seen(shared, local),
                  if shared.Some? then Plus(own, delta) else own)
    && if shared.Some? then shared.value.view.shared else LocalOk(c, left, local)
  }

  // A packed side takes only rows and keys the codec carries.
  ghost predicate Fits(c: Config, left: bool, shared: bool, delta: ZSet<Row>) {
    Normal(delta) && (!shared && c.PackedOk() ==> RowsCodable(c.Keys(left), c.nullSafe, c.keyForm, c.RowForm(left), delta))
  }

  // Integrate a delta into a local side; a shared one is maintained elsewhere.
  method IntegrateLocal(c: Config, left: bool, shared: Option<Side>, local: Side, delta: ZSet<Row>, ghost own: ZSet<Row>)
    returns (local': Side)
    requires SeenReady(c, left, shared, local, own, delta) && Fits(c, left, shared.Some?, delta)
    ensures Represents(c.Keys(left), c.nullSafe, c.Pads(left) || (left && c.joinType.Mark?), !left && c.joinType.Mark?,
                       Seen(shared, local'), Plus(own, delta))
    ensures if shared.None? then LocalOk(c, left, local') else local' == local
  {
    local' := local;
    if shared.None? {
      if local.view.store.packed {
        local' := IntegrateLayers(c.Keys(left), c.nullSafe, c.Pads(left), local, delta, own);
      } else {
        local' := IntegratePlain(c.Keys(left), c.nullSafe, c.Pads(left) || (left && c.joinType.Mark?),
                                 !left && c.joinType.Mark?, local, delta, own);
      }
    }
  }

  method MarkStepOf(c: Config, dl: ZSet<Row>, dr: ZSet<Row>, shL: Option<Side>, shR: Option<Side>,
                    left0: Side, right0: Side, marks0: MarkState, ghost L: ZSet<Row>, ghost R: ZSet<Row>)
    returns (left: Side, right: Side, marks: MarkState, out: ZSet<Row>)
    requires c.joinType.Mark? && Normal(dr) && NonNeg(L) && NonNeg(R)
    requires NonNeg(Plus(L, dl)) && NonNeg(Plus(R, dr))
    requires SeenReady(c, true, shL, left0, L, dl) && SeenReady(c, false, shR, right0, R, dr)
    requires Fits(c, true, shL.Some?, dl) && Fits(c, false, shR.Some?, dr)
    requires MarksExact(c, marks0, L, R)
    ensures if shL.None? then LocalOk(c, true, left) && Represents(c.leftKeys, c.nullSafe, true, false, left, Plus(L, dl))
            else left == left0
    ensures if shR.None? then LocalOk(c, false, right) && Represents(c.rightKeys, c.nullSafe, false, true, right, Plus(R, dr))
            else right == right0
    ensures MarksExact(c, marks, Plus(L, dl), Plus(R, dr)) && Normal(out)
    ensures forall o {:trigger W(out, o)} ::
              W(out, o) == MarkWeight(c, Plus(L, dl), Plus(R, dr), o) - MarkWeight(c, L, R, o)
  {
    // The counters before this step: a shared right side is already
    // post-delta, so its contribution is taken off again.
    var total, nulls := right0.total, right0.nulls;
    if shR.Some? {
      var dTotal, dNulls := CountDelta(c.rightKeys, c.nullSafe, dr);
      CountersBefore(c, shR.value.total, shR.value.nulls, dTotal, dNulls, R, dr);
      total, nulls := shR.value.total - dTotal, shR.value.nulls - dNulls;
    }
    right := IntegrateLocal(c, false, shR, right0, dr, R);
    left := IntegrateLocal(c, true, shL, left0, dl, L);
    CountersSign(c, total, nulls, R);
    CountersSign(c, Seen(shR, right).total, Seen(shR, right).nulls, Plus(R, dr));
    var categoryChanged := (total > 0) != (Seen(shR, right).total > 0) || (nulls > 0) != (Seen(shR, right).nulls > 0);
    marks, out := ReconcileMarks(c, dl, dr, Seen(shL, left), Seen(shR, right), marks0, categoryChanged, L, R);
  }

  // Both pad reconciliations, over the sides as they are after the step.
  method BothPads(c: Config, dl: ZSet<Row>, dr: ZSet<Row>, left: Side, right: Side,
                  leftPad0: ZSet<Row>, rightPad0: ZSet<Row>, out0: ZSet<Row>, ghost L: ZSet<Row>, ghost R: ZSet<Row>)
    returns (leftPad: ZSet<Row>, rightPad: ZSet<Row>, out: ZSet<Row>)
    requires Normal(leftPad0) && Normal(rightPad0) && Normal(out0)
    requires Typed(c, true, dl) && Typed(c, true, L)
    requires NonNeg(Plus(L, dl)) && NonNeg(Plus(R, dr))
    requires c.PadsLeft() || c.PadsRight() ==> Represents(c.leftKeys, c.nullSafe, c.PadsLeft(), false, left, Plus(L, dl))
    requires c.PadsLeft() || c.PadsRight() ==> Represents(c.rightKeys, c.nullSafe, c.PadsRight(), false, right, Plus(R, dr))
    requires PadsExact(c, true, leftPad0, L, R) && PadsExact(c, false, rightPad0, R, L)
    ensures Normal(leftPad) && Normal(rightPad) && Normal(out)
    ensures PadsExact(c, true, leftPad, Plus(L, dl), Plus(R, dr))
    ensures PadsExact(c, false, rightPad, Plus(R, dr), Plus(L, dl))
    ensures forall o {:trigger W(out, o)} :: W(out, o) == W(out0, o)
              + (PadPart(c, true, Plus(L, dl), Plus(R, dr), o) - PadPart(c, true, L, R, o))
              + (PadPart(c, false, Plus(R, dr), Plus(L, dl), o) - PadPart(c, false, R, L, o))
  {
    leftPad, rightPad, out := leftPad0, rightPad0, out0;
    if c.PadsLeft() {
      leftPad, out := ReconcilePads(c, true, dl, dr, left, right.view, leftPad0, out0, L, R);
    }
    ghost var mid := out;
    assert forall o :: W(mid, o) == W(out0, o) + (PadPart(c, true, Plus(L, dl), Plus(R, dr), o) - PadPart(c, true, L, R, o));
    if c.PadsRight() {
      rightPad, out := ReconcilePads(c, false, dr, dl, right, left.view, rightPad0, out, R, L);
    }
    assert forall o :: W(out, o) == W(mid, o) + (PadPart(c, false, Plus(R, dr), Plus(L, dl), o) - PadPart(c, false, R, L, o));
  }

  // Both local sides take their deltas.
  method IntegrateBoth(c: Config, dl: ZSet<Row>, dr: ZSet<Row>, shL: Option<Side>, shR: Option<Side>, left0: Side, right0: Side,
                       ghost L: ZSet<Row>, ghost R: ZSet<Row>) returns (left: Side, right: Side)
    requires !c.joinType.Mark?
    requires shL.None? || c.PadsLeft() || c.PadsRight() ==> SeenReady(c, true, shL, left0, L, dl)
    requires shR.None? || c.PadsLeft() || c.PadsRight() ==> SeenReady(c, false, shR, right0, R, dr)
    requires Fits(c, true, shL.Some?, dl) && Fits(c, false, shR.Some?, dr)
    ensures if shL.None? then LocalOk(c, true, left) else left == left0
    ensures if shR.None? then LocalOk(c, false, right) else right == right0
    ensures shL.None? || c.PadsLeft() || c.PadsRight() ==>
              Represents(c.leftKeys, c.nullSafe, c.PadsLeft(), false, Seen(shL, left), Plus(L, dl))
    ensures shR.None? || c.PadsLeft() || c.PadsRight() ==>
              Represents(c.rightKeys, c.nullSafe, c.PadsRight(), false, Seen(shR, right), Plus(R, dr))
  {
    left, right := left0, right0;
    if shL.None? {
      left := IntegrateLocal(c, true, shL, left0, dl, L);
    }
    if shR.None? {
      right := IntegrateLocal(c, false, shR, right0, dr, R);
    }
  }

  method JoinParts(c: Config, shardsCfg: nat, dl: ZSet<Row>, dr: ZSet<Row>, shL: Option<Side>, shR: Option<Side>,
                   left0: Side, right0: Side, leftPad0: ZSet<Row>, rightPad0: ZSet<Row>,
                   ghost L: ZSet<Row>, ghost R: ZSet<Row>, ghost contentL: ZSet<Row>, ghost contentR: ZSet<Row>)
    returns (left: Side, right: Side, leftPad: ZSet<Row>, rightPad: ZSet<Row>, out: ZSet<Row>)
    requires !c.joinType.Mark? && Typed(c, true, dl) && Typed(c, true, L) && Typed(c, true, contentL)
    requires NonNeg(Plus(L, dl)) && NonNeg(Plus(R, dr))
    requires Indexes(c.leftKeys, c.nullSafe, Seen(shL, left0).view, contentL)
    requires Indexes(c.rightKeys, c.nullSafe, Seen(shR, right0).view, contentR)
    requires Seen(shL, left0).view.shared == shL.Some? && Seen(shR, right0).view.shared == shR.Some?
    requires if shL.Some? then Usable(contentL, L, dl, dr) else contentL == L
    requires if shR.Some? then Usable(contentR, R, dr, dl) else contentR == R
    requires shL.None? ==> SeenReady(c, true, shL, left0, L, dl)
    requires shR.None? ==> SeenReady(c, false, shR, right0, R, dr)
    requires Fits(c, true, shL.Some?, dl) && Fits(c, false, shR.Some?, dr)
    requires c.PadsLeft() || c.PadsRight() ==>
               SeenReady(c, true, shL, left0, L, dl) && SeenReady(c, false, shR, right0, R, dr)
    requires Normal(leftPad0) && Normal(rightPad0)
    requires PadsExact(c, true, leftPad0, L, R) && PadsExact(c, false, rightPad0, R, L)
    ensures if shL.None? then LocalOk(c, true, left) && Represents(c.leftKeys, c.nullSafe, c.PadsLeft(), false, left, Plus(L, dl))
            else left == left0
    ensures if shR.None? then LocalOk(c, false, right) && Represents(c.rightKeys, c.nullSafe, c.PadsRight(), false, right, Plus(R, dr))
            else right == right0
    ensures Normal(leftPad) && Normal(rightPad) && Normal(out)
    ensures PadsExact(c, true, leftPad, Plus(L, dl), Plus(R, dr))
    ensures PadsExact(c, false, rightPad, Plus(R, dr), Plus(L, dl))
    ensures forall o {:trigger W(out, o)} ::
              W(out, o) == JoinedWeight(c, Plus(L, dl), Plus(R, dr), o) - JoinedWeight(c, L, R, o)
                - Lost(c, shardsCfg, dl, dr, Blind(Seen(shL, left0).view), Blind(Seen(shR, right0).view), contentL, contentR, o)
  {
    var inner := InnerPasses(c, shardsCfg, dl, dr, Seen(shL, left0).view, Seen(shR, right0).view, L, R, contentL, contentR);
    left, right := IntegrateBoth(c, dl, dr, shL, shR, left0, right0, L, R);
    leftPad, rightPad, out := BothPads(c, dl, dr, Seen(shL, left), Seen(shR, right), leftPad0, rightPad0, inner, L, R);
    JoinedMoves(c, inner, out, L, R, Plus(L, dl), Plus(R, dr),
                o => Lost(c, shardsCfg, dl, dr, Blind(Seen(shL, left0).view), Blind(Seen(shR, right0).view), contentL, contentR, o));
  }

  lemma JoinedMoves(c: Config, inner: ZSet<Row>, out: ZSet<Row>, L: ZSet<Row>, R: ZSet<Row>, L': ZSet<Row>, R': ZSet<Row>,
                    lost: Row -> int)
    requires forall o {:trigger W(inner, o)} :: W(inner, o) == InnerWeight(c, L', R', o) - InnerWeight(c, L, R, o) - lost(o)
    requires forall o {:trigger W(out, o)} :: W(out, o) == W(inner, o)
              + (PadPart(c, true, L', R', o) - PadPart(c, true, L, R, o))
              + (PadPart(c, false, R', L', o) - PadPart(c, false, R, L, o))
    ensures forall o {:trigger W(out, o)} :: W(out, o) == JoinedWeight(c, L', R', o) - JoinedWeight(c, L, R, o) - lost(o)
  {
    forall o ensures W(out, o) == JoinedWeight(c, L', R', o) - JoinedWeight(c, L, R, o) - lost(o) {
      JoinedDelta(c, L, R, L', R', o);
      assert W(inner, o) == InnerWeight(c, L', R', o) - InnerWeight(c, L, R, o) - lost(o);
    }
  }

  // What the passes need of one of the sides they read.
  ghost predicate SideInput(c: Config, left: bool, shared: Option<Side>, local: Side, own: ZSet<Row>, delta: ZSet<Row>,
                            otherDelta: ZSet<Row>, content: ZSet<Row>)
  {
    && Typed(c, left, content)
    && Indexes(c.Keys(left), c.nullSafe, Seen(shared, local).view, content)
    && Seen(shared, local).view.shared == shared.Some?
    && (if shared.Some? then Usable(content, own, delta, otherDelta) else content == own)
    && (shared.None? || !c.joinType.Inner? ==> SeenReady(c, left, shared, local, own, delta))
    && Fits(c, left, shared.Some?, delta)
  }

  ghost predicate InputsReady(c: Config, dl: ZSet<Row>, dr: ZSet<Row>, shL: Option<Side>, shR: Option<Side>,
                              st: NodeState, L: ZSet<Row>, R: ZSet<Row>, contentL: ZSet<Row>, contentR: ZSet<Row>)
  {
    && SideInput(c, true, shL, st.left, L, dl, dr, contentL)
    && SideInput(c, false, shR, st.right, R, dr, dl, contentR)
  }

  method JoinStepOf(c: Config, shardsCfg: nat, dl: ZSet<Row>, dr: ZSet<Row>, shL: Option<Side>, shR: Option<Side>, st: NodeState,
                    ghost L: ZSet<Row>, ghost R: ZSet<Row>, ghost contentL: ZSet<Row>, ghost contentR: ZSet<Row>)
    returns (left: Side, right: Side, leftPad: ZSet<Row>, rightPad: ZSet<Row>, out: ZSet<Row>)
    requires !c.joinType.Mark? && StateFor(c, shL.Some?, shR.Some?, st, L, R) && Typed(c, true, dl)
    requires NonNeg(Plus(L, dl)) && NonNeg(Plus(R, dr))
    requires InputsReady(c, dl, dr, shL, shR, st, L, R, contentL, contentR)
    ensures if shL.None? then LocalOk(c, true, left) && Represents(c.leftKeys, c.nullSafe, c.PadsLeft(), false, left, Plus(L, dl))
            else left == st.left
    ensures if shR.None? then LocalOk(c, false, right) && Represents(c.rightKeys, c.nullSafe, c.PadsRight(), false, right, Plus(R, dr))
            else right == st.right
    ensures Normal(leftPad) && Normal(rightPad) && Normal(out)
    ensures PadsExact(c, true, leftPad, Plus(L, dl), Plus(R, dr))
    ensures PadsExact(c, false, rightPad, Plus(R, dr), Plus(L, dl))
    ensures forall o {:trigger W(out, o)} ::
              W(out, o) == JoinedWeight(c, Plus(L, dl), Plus(R, dr), o) - JoinedWeight(c, L, R, o)
                - Lost(c, shardsCfg, dl, dr, Blind(Seen(shL, st.left).view), Blind(Seen(shR, st.right).view), contentL, contentR, o)
  {
    left, right, leftPad, rightPad, out :=
      JoinParts(c, shardsCfg, dl, dr, shL, shR, st.left, st.right, st.leftPad, st.rightPad, L, R, contentL, contentR);
  }

  // One step as a function of the operator state.
  method StepOf(c: Config, shardsCfg: nat, dl: ZSet<Row>, dr: ZSet<Row>, shL: Option<Side>, shR: Option<Side>,
                st: NodeState, ghost L: ZSet<Row>, ghost R: ZSet<Row>, ghost contentL: ZSet<Row>, ghost contentR: ZSet<Row>)
    returns (next: NodeState, out: ZSet<Row>)
    requires StateFor(c, shL.Some?, shR.Some?, st, L, R)
    requires Typed(c, true, dl)
    requires NonNeg(Plus(L, dl)) && NonNeg(Plus(R, dr))
    requires InputsReady(c, dl, dr, shL, shR, st, L, R, contentL, contentR)
    ensures StateFor(c, shL.Some?, shR.Some?, next, Plus(L, dl), Plus(R, dr))
    ensures Normal(out)
    ensures forall o {:trigger W(out, o)} ::
              W(out, o) == SpecWeight(c, Plus(L, dl), Plus(R, dr), o) - SpecWeight(c, L, R, o)
                - Lost(c, shardsCfg, dl, dr, Blind(Seen(shL, st.left).view), Blind(Seen(shR, st.right).view), contentL, contentR, o)
  {
    if c.joinType.Mark? {
      next, out := MarkedStep(c, dl, dr, shL, shR, st, L, R);
      NoneLost(c, shardsCfg, dl, dr, Blind(Seen(shL, st.left).view), Blind(Seen(shR, st.right).view), contentL, contentR);
    } else {
      next, out := JoinedStep(c, shardsCfg, dl, dr, shL, shR, st, L, R, contentL, contentR);
    }
  }

  lemma NoneLost(c: Config, shardsCfg: nat, dl: ZSet<Row>, dr: ZSet<Row>, blindL: bool, blindR: bool,
                 contentL: ZSet<Row>, contentR: ZSet<Row>)
    requires !c.joinType.Inner? || !Loses(c, shardsCfg, |dl|, |dr|, blindL, blindR)
    ensures forall o {:trigger Lost(c, shardsCfg, dl, dr, blindL, blindR, contentL, contentR, o)} ::
              Lost(c, shardsCfg, dl, dr, blindL, blindR, contentL, contentR, o) == 0
  {
  }

  method MarkedStep(c: Config, dl: ZSet<Row>, dr: ZSet<Row>, shL: Option<Side>, shR: Option<Side>, st: NodeState,
                    ghost L: ZSet<Row>, ghost R: ZSet<Row>) returns (next: NodeState, out: ZSet<Row>)
    requires c.joinType.Mark? && StateFor(c, shL.Some?, shR.Some?, st, L, R) && Typed(c, true, dl)
    requires NonNeg(Plus(L, dl)) && NonNeg(Plus(R, dr))
    requires SeenReady(c, true, shL, st.left, L, dl) && SeenReady(c, false, shR, st.right, R, dr)
    requires Fits(c, true, shL.Some?, dl) && Fits(c, false, shR.Some?, dr)
    ensures StateFor(c, shL.Some?, shR.Some?, next, Plus(L, dl), Plus(R, dr)) && Normal(out)
    ensures forall o {:trigger W(out, o)} ::
              W(out, o) == SpecWeight(c, Plus(L, dl), Plus(R, dr), o) - SpecWeight(c, L, R, o)
  {
    var left, right, marks, delta := MarkStepOf(c, dl, dr, shL, shR, st.left, st.right, st.marks, L, R);
    next, out := st.(left := left, right := right, marks := marks), delta;
  }

  lemma JoinedState(c: Config, sharedL: bool, sharedR: bool, next: NodeState, L: ZSet<Row>, R: ZSet<Row>)
    requires !c.joinType.Mark? && Normal(L) && Normal(R) && NonNeg(L) && NonNeg(R) && Typed(c, true, L)
    requires LocalOk(c, true, next.left) && LocalOk(c, false, next.right)
    requires sharedL || Represents(c.leftKeys, c.nullSafe, c.PadsLeft(), false, next.left, L)
    requires sharedR || Represents(c.rightKeys, c.nullSafe, c.PadsRight(), false, next.right, R)
    requires Normal(next.leftPad) && Normal(next.rightPad)
    requires PadsExact(c, true, next.leftPad, L, R) && PadsExact(c, false, next.rightPad, R, L)
    ensures StateFor(c, sharedL, sharedR, next, L, R)
  {
  }

  method JoinedStep(c: Config, shardsCfg: nat, dl: ZSet<Row>, dr: ZSet<Row>, shL: Option<Side>, shR: Option<Side>, st: NodeState,
                    ghost L: ZSet<Row>, ghost R: ZSet<Row>, ghost contentL: ZSet<Row>, ghost contentR: ZSet<Row>)
    returns (next: NodeState, out: ZSet<Row>)
    requires !c.joinType.Mark? && StateFor(c, shL.Some?, shR.Some?, st, L, R) && Typed(c, true, dl)
    requires NonNeg(Plus(L, dl)) && NonNeg(Plus(R, dr))
    requires InputsReady(c, dl, dr, shL, shR, st, L, R, contentL, contentR)
    ensures StateFor(c, shL.Some?, shR.Some?, next, Plus(L, dl), Plus(R, dr)) && Normal(out)
    ensures forall o {:trigger W(out, o)} ::
              W(out, o) == SpecWeight(c, Plus(L, dl), Plus(R, dr), o) - SpecWeight(c, L, R, o)
                - Lost(c, shardsCfg, dl, dr, Blind(Seen(shL, st.left).view), Blind(Seen(shR, st.right).view), contentL, contentR, o)
  {
    var left, right, leftPad, rightPad, delta :=
      JoinStepOf(c, shardsCfg, dl, dr, shL, shR, st, L, R, contentL, contentR);
    next, out := NodeState(left, right, leftPad, rightPad, st.marks), delta;
    JoinedState(c, shL.Some?, shR.Some?, next, Plus(L, dl), Plus(R, dr));
  }
}
