// The incremental join node and the shared arrangements it may read
// (include/dbsp_plan_join.hpp).
module JoinNode {
  import opened ZSets
  import opened Rows
  import opened JoinSemantics
  import opened JoinStorage
  import opened JoinSides
  import opened JoinStep
  import PackedRow
  import P = PackedIntegrate

  // Shared arrangement: one side of a table or view, maintained once per
  // delta by the manager and only read by the join nodes. It keeps full rows,
  // packed when its columns allow it and no counters are tracked.
  class SharedArrangement {
    const keys: KeyExprs
    const nullSafe: bool
    const trackWeights: bool
    const trackCounters: bool
    const packedOk: bool
    const keyForm: Form
    const rowForm: Form
    var side: Side
    var packed: P.Index  // the overlay, with the keys of emptied buckets
    ghost var content: ZSet<Row>

    ghost predicate Valid()
      reads this
    {
      && side.view.shared && side.view.proj.None? && side.view.store.packed == packedOk
      && side.view.store.keyForm == keyForm && side.view.store.rowForm == rowForm
      && (packedOk ==> !trackCounters && side.view.store.overlay == Present(packed))
      && Represents(keys, nullSafe, trackWeights, trackCounters, side, content)
    }

    constructor (keys: KeyExprs, nullSafe: bool, trackWeights: bool, trackCounters: bool, types: seq<PackedRow.Type>,
                 keyForm: Form, rowForm: Form)
      ensures Valid() && content == map[]
      ensures this.keys == keys && this.nullSafe == nullSafe
      ensures this.trackWeights == trackWeights && this.trackCounters == trackCounters
      ensures packedOk == (!trackCounters && PackedRow.TypesOk(types))
      ensures this.keyForm == keyForm && this.rowForm == rowForm
    {
      this.keys, this.nullSafe := keys, nullSafe;
      this.trackWeights, this.trackCounters := trackWeights, trackCounters;
      packedOk := !trackCounters && PackedRow.TypesOk(types);
      this.keyForm, this.rowForm := keyForm, rowForm;
      side := NewShared(!trackCounters && PackedRow.TypesOk(types), keyForm, rowForm);
      packed, content := map[], map[];
      NewSharedRepresents(keys, nullSafe, trackWeights, trackCounters, !trackCounters && PackedRow.TypesOk(types), keyForm, rowForm);
    }

    // Rows and keys that the codec does not carry are an error in packed storage.
    ghost predicate Takes(delta: ZSet<Row>) {
      Normal(delta) && (packedOk ==> RowsCodable(keys, nullSafe, keyForm, rowForm, delta))
    }

    method Apply(delta: ZSet<Row>)
      requires Valid() && Takes(delta)
      modifies this
      ensures Valid() && content == Plus(old(content), delta)
    {
      if packedOk {
        side, packed := ApplyLayers(keys, nullSafe, trackWeights, side, packed, delta, content);
      } else {
        side := IntegratePlain(keys, nullSafe, trackWeights, trackCounters, side, delta, content);
      }
      content := Plus(content, delta);
    }
  }

  // An arrangement as one consumer reads it, or none.
  datatype Share = NoShare | Share(arr: SharedArrangement, proj: Option<seq<nat>>)
  {
    function Objects(): set<object> {
      if Share? then {arr} else {}
    }

    ghost function Content(): ZSet<Row>
      requires Share?
      reads Objects()
    {
      Shown(proj, arr.content)
    }

    // It is keyed for this side and tracks what the join needs.
    ghost predicate FitsSide(c: Config, left: bool)
      reads Objects()
    {
      Share? ==>
        && arr.Valid() && KeyedThrough(arr.keys, proj, c.Keys(left)) && arr.nullSafe == c.nullSafe && Typed(c, left, Content())
        && (arr.trackWeights ==> proj.None?) && (!left && c.joinType.Mark? ==> arr.trackCounters)
        && !c.Pads(left) && !(left && c.joinType.Mark?)
    }

    // Whether threads of the other side's passes find nothing in it.
    predicate Blind() {
      Share? && arr.packedOk && proj.Some?
    }
  }

  // The emitted rows and those left out are together the SQL join.
  ghost predicate SumsWith(c: Config, emitted: ZSet<Row>, missing: Row -> int, L: ZSet<Row>, R: ZSet<Row>) {
    Normal(emitted) && forall o {:trigger W(emitted, o)} :: W(emitted, o) + missing(o) == SpecWeight(c, L, R, o)
  }

  ghost predicate MovesWithout(c: Config, output: ZSet<Row>, lost: Row -> int, L: ZSet<Row>, R: ZSet<Row>, L': ZSet<Row>, R': ZSet<Row>) {
    Normal(output) &&
    forall o {:trigger W(output, o)} :: W(output, o) == SpecWeight(c, L', R', o) - SpecWeight(c, L, R, o) - lost(o)
  }

  // What a step leaves out, as a function of the output row.
  ghost function Omitted(c: Config, shardsCfg: nat, dl: ZSet<Row>, dr: ZSet<Row>, blindL: bool, blindR: bool,
                         contentL: ZSet<Row>, contentR: ZSet<Row>): Row -> int
  {
    (o: Row) => Lost(c, shardsCfg, dl, dr, blindL, blindR, contentL, contentR, o)
  }

  ghost function AddedTo(missing: Row -> int, lost: Row -> int): Row -> int {
    (o: Row) => missing(o) + lost(o)
  }

  lemma SumsAfter(c: Config, emitted: ZSet<Row>, missing: Row -> int, output: ZSet<Row>, lost: Row -> int,
                  L: ZSet<Row>, R: ZSet<Row>, L': ZSet<Row>, R': ZSet<Row>)
    requires SumsWith(c, emitted, missing, L, R) && MovesWithout(c, output, lost, L, R, L', R')
    ensures SumsWith(c, Plus(emitted, output), AddedTo(missing, lost), L', R')
  {
  }

  ghost predicate Zero(f: Row -> int) {
    forall o {:trigger f(o)} :: f(o) == 0
  }

  ghost predicate Same(f: Row -> int, g: Row -> int) {
    forall o {:trigger f(o)} :: f(o) == g(o)
  }

  lemma NothingMissed(c: Config, output: ZSet<Row>, lost: Row -> int, missing: Row -> int,
                      L: ZSet<Row>, R: ZSet<Row>, L': ZSet<Row>, R': ZSet<Row>)
    requires MovesWithout(c, output, lost, L, R, L', R') && Zero(lost)
    ensures MovesTo(c, output, L, R, L', R') && Same(AddedTo(missing, lost), missing)
  {
  }

  // A chunk of rows as the replay gives it to one side.
  ghost predicate ChunkOk(c: Config, left: bool, shared: bool, chunk: ZSet<Row>) {
    Normal(chunk) && NonNeg(chunk) && Typed(c, left, chunk) && Fits(c, left, shared, chunk)
  }

  ghost predicate SourceChunks(c: Config, left: bool, shared: bool, chunks: seq<ZSet<Row>>) {
    forall i {:trigger chunks[i]} :: 0 <= i < |chunks| ==> ChunkOk(c, left, shared, chunks[i])
  }

  // A chunk of n rows is probed in parallel against a blind other side.
  predicate ChunkLoses(c: Config, shardsCfg: nat, n: nat, blind: bool) {
    blind && Shardable(c, shardsCfg, n) && Shards(shardsCfg, n) > 1
  }

  ghost predicate SomeChunkLoses(c: Config, shardsCfg: nat, chunks: seq<ZSet<Row>>, blind: bool) {
    exists i {:trigger chunks[i]} :: 0 <= i < |chunks| && ChunkLoses(c, shardsCfg, |chunks[i]|, blind)
  }

  ghost predicate SomeReplayLoses(c: Config, shardsCfg: nat, leftChunks: seq<ZSet<Row>>, rightChunks: seq<ZSet<Row>>,
                                  left: Share, right: Share) {
    SomeChunkLoses(c, shardsCfg, leftChunks, right.Blind()) || SomeChunkLoses(c, shardsCfg, rightChunks, left.Blind())
  }

  // A side that starts to read an arrangement; with `skip` its content counts
  // as integrated.
  lemma ShareState(c: Config, left: bool, sharedL: bool, sharedR: bool, st: NodeState, L: ZSet<Row>, R: ZSet<Row>,
                   content: ZSet<Row>, skip: bool)
    requires StateFor(c, sharedL, sharedR, st, L, R) && Normal(content) && NonNeg(content) && Typed(c, left, content)
    requires (if left then L else R) == map[] && !c.Pads(left) && !(left && c.joinType.Mark?)
    requires skip ==> (if left then R else L) == map[]
    ensures StateFor(c, left || sharedL, !left || sharedR, st, if left && skip then content else L, if !left && skip then content else R)
  {
  }

  lemma ShareSums(c: Config, left: bool, missing: Row -> int, L: ZSet<Row>, R: ZSet<Row>, content: ZSet<Row>, skip: bool)
    requires SumsWith(c, map[], missing, L, R) && Zero(missing)
    requires (if left then L else R) == map[] && !c.Pads(left) && !(left && c.joinType.Mark?)
    requires skip ==> (if left then R else L) == map[]
    ensures SumsWith(c, map[], missing, if left && skip then content else L, if !left && skip then content else R)
  {
    var L', R' := if left && skip then content else L, if !left && skip then content else R;
    if skip {
      forall o ensures W(map[], o) + missing(o) == SpecWeight(c, L', R', o) {
        OneSideEmpty(c, left, L', R', o);
      }
    }
  }

  // Rows of one side alone join to nothing, unless they are preserved.
  lemma OneSideEmpty(c: Config, left: bool, L: ZSet<Row>, R: ZSet<Row>, o: Row)
    requires (if left then R else L) == map[] && !c.Pads(left) && !(left && c.joinType.Mark?)
    ensures SpecWeight(c, L, R, o) == 0
  {
    if !c.joinType.Mark? {
      assert InnerWeight(c, L, R, o) == 0;
    }
  }

  lemma EmptyStateFor(c: Config)
    ensures StateFor(c, false, false, EmptyState(c), map[], map[])
    ensures SumsWith(c, map[], (o: Row) => 0, map[], map[])
  {
    EmptyRepresents(c.leftKeys, c.nullSafe, c.PadsLeft() || c.joinType.Mark?, false, c.PackedOk(), c.keyForm, c.leftForm);
    EmptyRepresents(c.rightKeys, c.nullSafe, c.PadsRight(), c.joinType.Mark?, c.PackedOk(), c.keyForm, c.rightForm);
  }

  class PlanJoinNode {
    const c: Config
    const shardsCfg: nat
    var sharedLeft: Share
    var sharedRight: Share
    var state: NodeState
    var output: ZSet<Row>

    ghost var L: ZSet<Row>   // the integrated inputs
    ghost var R: ZSet<Row>
    ghost var emitted: ZSet<Row>    // the sum of all outputs so far
    ghost var missing: Row -> int   // what range-split passes left out so far

    // The run invariant: whatever steps were taken, the emitted deltas and
    // what was left out sum to the SQL join of the integrated inputs.
    ghost predicate Valid()
      reads this
    {
      && StateFor(c, sharedLeft.Share?, sharedRight.Share?, state, L, R)
      && SumsWith(c, emitted, missing, L, R)
    }

    constructor (c: Config, shardsCfg: nat)
      ensures Valid() && this.c == c && this.shardsCfg == shardsCfg && L == map[] && R == map[] && emitted == map[]
      ensures sharedLeft == NoShare && sharedRight == NoShare
      ensures state == EmptyState(c) && Zero(missing)
    {
      this.c, this.shardsCfg := c, shardsCfg;
      sharedLeft, sharedRight := NoShare, NoShare;
      state, output := EmptyState(c), map[];
      L, R, emitted, missing := map[], map[], map[], (o: Row) => 0;
      EmptyStateFor(c);
    }

    function Shared(left: bool): Share
      reads this
    {
      if left then sharedLeft else sharedRight
    }

    // Make one side read a shared arrangement that may already hold rows (its
    // backfill). With `initSkip` the side's source is not replayed through
    // the node: the backfill counts as integrated. A side that preserves its
    // own rows cannot be shared, and only one side can be skipped.
    method SetSharedArrangement(left: bool, share: Share, initSkip: bool)
      requires Valid() && share.Share? && share.FitsSide(c, left) && NonNeg(share.Content())
      requires (if left then L else R) == map[] && emitted == map[] && Zero(missing)
      requires initSkip ==> (if left then R else L) == map[]
      modifies this
      ensures Valid()
      ensures sharedLeft == (if left then share else old(sharedLeft))
      ensures sharedRight == (if left then old(sharedRight) else share)
      ensures L == (if left && initSkip then share.Content() else old(L))
      ensures R == (if !left && initSkip then share.Content() else old(R))
      ensures emitted == map[] && missing == old(missing) && state == old(state)
    {
      ShownNormal(share.proj, share.arr.content);
      ghost var content := share.Content();
      ShareState(c, left, sharedLeft.Share?, sharedRight.Share?, state, L, R, content, initSkip);
      ShareSums(c, left, missing, L, R, content, initSkip);
      Attach(left, share, if left && initSkip then content else L, if !left && initSkip then content else R);
    }

    method Attach(left: bool, share: Share, ghost L': ZSet<Row>, ghost R': ZSet<Row>)
      requires share.Share? && StateFor(c, left || sharedLeft.Share?, !left || sharedRight.Share?, state, L', R')
      requires SumsWith(c, emitted, missing, L', R')
      modifies this`sharedLeft, this`sharedRight, this`L, this`R
      ensures Valid() && L == L' && R == R'
      ensures sharedLeft == (if left then share else old(sharedLeft))
      ensures sharedRight == (if left then old(sharedRight) else share)
    {
      if left {
        sharedLeft := share;
      } else {
        sharedRight := share;
      }
      L, R := L', R';
    }

    ghost predicate SharedReady(left: bool, dl: ZSet<Row>, dr: ZSet<Row>)
      reads this, Shared(left).Objects()
    {
      var share := Shared(left);
      share.Share? ==>
        share.arr.Valid()
        && Serves(c, left, share.arr.keys, share.arr.nullSafe, share.arr.trackWeights, share.arr.trackCounters, share.proj,
                  share.Content(), if left then L else R, if left then dl else dr, if left then dr else dl)
    }

    function SharedSide(left: bool): Option<Side>
      reads this, Shared(left).Objects()
    {
      var share := Shared(left);
      if share.NoShare? then None else Some(ThroughProjection(share.arr.side, share.proj))
    }

    ghost function ContentOf(left: bool): ZSet<Row>
      reads this, Shared(left).Objects()
    {
      var share := Shared(left);
      if share.NoShare? then if left then L else R else share.Content()
    }

    function ViewOf(left: bool): View
      reads this, Shared(left).Objects()
    {
      Seen(SharedSide(left), if left then state.left else state.right).view
    }

    // What a step asks of its deltas. Rows and keys that the codec does not
    // carry are an error in a packed local side.
    ghost predicate Steppable(dl: ZSet<Row>, dr: ZSet<Row>)
      reads this, sharedLeft.Objects(), sharedRight.Objects()
    {
      && Typed(c, true, dl) && NonNeg(Plus(L, dl)) && NonNeg(Plus(R, dr))
      && Fits(c, true, sharedLeft.Share?, dl) && Fits(c, false, sharedRight.Share?, dr)
      && SharedReady(true, dl, dr) && SharedReady(false, dl, dr)
    }

    // Whether a step with deltas of these sizes has a range-split pass whose
    // threads look for the other side's rows where none are kept.
    predicate LosesMatches(nl: nat, nr: nat)
      reads this
    {
      Loses(c, shardsCfg, nl, nr, sharedLeft.Blind(), sharedRight.Blind())
    }

    // What a step does not emit.
    ghost function Omits(dl: ZSet<Row>, dr: ZSet<Row>): Row -> int
      reads this, sharedLeft.Objects(), sharedRight.Objects()
    {
      Omitted(c, shardsCfg, dl, dr, sharedLeft.Blind(), sharedRight.Blind(), ContentOf(true), ContentOf(false))
    }

    lemma SideReady(left: bool, delta: ZSet<Row>, otherDelta: ZSet<Row>)
      requires Valid() && Typed(c, left, if left then L else R) && Fits(c, left, Shared(left).Share?, delta)
      requires if left then SharedReady(true, delta, otherDelta) else SharedReady(false, otherDelta, delta)
      ensures SideInput(c, left, SharedSide(left), if left then state.left else state.right, if left then L else R,
                        delta, otherDelta, ContentOf(left))
    {
      var share := Shared(left);
      if share.Share? {
        ServedSide(c, left, share.arr.keys, share.arr.nullSafe, share.arr.trackWeights, share.arr.trackCounters, share.proj,
                   share.arr.side, share.arr.content, if left then L else R, delta, otherDelta);
      }
    }

    lemma SidesReady(dl: ZSet<Row>, dr: ZSet<Row>)
      requires Valid() && Steppable(dl, dr)
      ensures InputsReady(c, dl, dr, SharedSide(true), SharedSide(false), state, L, R,
                          ContentOf(true), ContentOf(false))
    {
      SideReady(true, dl, dr);
      SideReady(false, dr, dl);
    }

    lemma BlindView(left: bool)
      requires Valid() && (Shared(left).Share? ==> Shared(left).arr.Valid())
      ensures Blind(ViewOf(left)) == Shared(left).Blind()
    {
    }

    lemma BlindViews(dl: ZSet<Row>, dr: ZSet<Row>)
      requires Valid() && Steppable(dl, dr)
      ensures Blind(ViewOf(true)) == sharedLeft.Blind() && Blind(ViewOf(false)) == sharedRight.Blind()
    {
      BlindView(true);
      BlindView(false);
    }

    lemma OmitsNothing(dl: ZSet<Row>, dr: ZSet<Row>)
      requires !LosesMatches(|dl|, |dr|)
      ensures Zero(Omits(dl, dr))
    {
      NoneLost(c, shardsCfg, dl, dr, sharedLeft.Blind(), sharedRight.Blind(), ContentOf(true), ContentOf(false));
    }

    // One circuit step: the output is exactly the change of the SQL join, up
    // to what a range-split pass over a projected packed arrangement leaves out.
    method Step(dl: ZSet<Row>, dr: ZSet<Row>)
      requires Valid() && Steppable(dl, dr)
      modifies this
      ensures Valid() && sharedLeft == old(sharedLeft) && sharedRight == old(sharedRight)
      ensures L == Plus(old(L), dl) && R == Plus(old(R), dr) && emitted == Plus(old(emitted), output)
      ensures MovesWithout(c, output, old(Omits(dl, dr)), old(L), old(R), L, R)
      ensures missing == AddedTo(old(missing), old(Omits(dl, dr)))
      ensures !old(LosesMatches(|dl|, |dr|)) ==> Same(missing, old(missing)) && MovesTo(c, output, old(L), old(R), L, R)
    {
      var next, out := Advance(dl, dr);
      Exact(dl, dr, out);
      Install(next, out, Plus(L, dl), Plus(R, dr), Plus(emitted, out), AddedTo(missing, Omits(dl, dr)));
    }

    lemma Exact(dl: ZSet<Row>, dr: ZSet<Row>, out: ZSet<Row>)
      requires Valid() && Steppable(dl, dr) && MovesWithout(c, out, Omits(dl, dr), L, R, Plus(L, dl), Plus(R, dr))
      ensures !LosesMatches(|dl|, |dr|) ==>
                MovesTo(c, out, L, R, Plus(L, dl), Plus(R, dr)) && Same(AddedTo(missing, Omits(dl, dr)), missing)
    {
      if !LosesMatches(|dl|, |dr|) {
        OmitsNothing(dl, dr);
        NothingMissed(c, out, Omits(dl, dr), missing, L, R, Plus(L, dl), Plus(R, dr));
      }
    }

    method Advance(dl: ZSet<Row>, dr: ZSet<Row>) returns (next: NodeState, out: ZSet<Row>)
      requires Valid() && Steppable(dl, dr)
      ensures StateFor(c, sharedLeft.Share?, sharedRight.Share?, next, Plus(L, dl), Plus(R, dr))
      ensures MovesWithout(c, out, Omits(dl, dr), L, R, Plus(L, dl), Plus(R, dr))
      ensures SumsWith(c, Plus(emitted, out), AddedTo(missing, Omits(dl, dr)), Plus(L, dl), Plus(R, dr))
    {
      if dl == map[] && dr == map[] {
        NothingMoves(c, L, R);
        OmitsNothing(dl, dr);
        next, out := state, map[];
      } else {
        next, out := Compute(dl, dr);
      }
      SumsAfter(c, emitted, missing, out, Omits(dl, dr), L, R, Plus(L, dl), Plus(R, dr));
    }

    method Compute(dl: ZSet<Row>, dr: ZSet<Row>) returns (next: NodeState, out: ZSet<Row>)
      requires Valid() && Steppable(dl, dr)
      ensures StateFor(c, sharedLeft.Share?, sharedRight.Share?, next, Plus(L, dl), Plus(R, dr))
      ensures MovesWithout(c, out, Omits(dl, dr), L, R, Plus(L, dl), Plus(R, dr))
    {
      SidesReady(dl, dr);
      BlindViews(dl, dr);
      next, out := StepOf(c, shardsCfg, dl, dr, SharedSide(true), SharedSide(false), state,
                          L, R, ContentOf(true), ContentOf(false));
    }

    method Install(next: NodeState, out: ZSet<Row>, ghost L': ZSet<Row>, ghost R': ZSet<Row>,
                   ghost emitted': ZSet<Row>, ghost missing': Row -> int)
      requires StateFor(c, sharedLeft.Share?, sharedRight.Share?, next, L', R') && SumsWith(c, emitted', missing', L', R')
      modifies this`state, this`output, this`L, this`R, this`emitted, this`missing
      ensures Valid() && state == next && output == out
      ensures L == L' && R == R' && emitted == emitted' && missing == missing'
    {
      state, output := next, out;
      L, R, emitted, missing := L', R', emitted', missing';
    }

    lemma ChunkReady(left: bool, chunk: ZSet<Row>)
      requires Valid() && Replayable(left) && ChunkOk(c, left, Shared(left).Share?, chunk)
      ensures Steppable(if left then chunk else map[], if left then map[] else chunk)
    {
      PlusNothing(L);
      PlusNothing(R);
    }

    method ReplayChunk(left: bool, chunk: ZSet<Row>)
      requires Valid() && Replayable(left) && ChunkOk(c, left, Shared(left).Share?, chunk)
      modifies this
      ensures Valid() && Replayable(left)
      ensures sharedLeft == old(sharedLeft) && sharedRight == old(sharedRight)
      ensures L == (if left then Plus(old(L), chunk) else old(L))
      ensures R == (if left then old(R) else Plus(old(R), chunk))
      ensures !ChunkLoses(c, shardsCfg, |chunk|, old(Shared(!left).Blind())) ==> Same(missing, old(missing))
    {
      ghost var own, other := Shared(left), Shared(!left);
      ghost var seen := if other.Share? then other.Content() else map[];
      ChunkReady(left, chunk);
      StepWith(left, chunk);
      assert own.FitsSide(c, left) && other.FitsSide(c, !left);
      assert other.Share? ==> other.Content() == seen;
    }

    // One side's chunk as a step.
    method StepWith(left: bool, chunk: ZSet<Row>)
      requires Valid() && Steppable(if left then chunk else map[], if left then map[] else chunk)
      modifies this
      ensures Valid() && sharedLeft == old(sharedLeft) && sharedRight == old(sharedRight)
      ensures L == (if left then Plus(old(L), chunk) else old(L))
      ensures R == (if left then old(R) else Plus(old(R), chunk))
      ensures !ChunkLoses(c, shardsCfg, |chunk|, old(Shared(!left).Blind())) ==> Same(missing, old(missing))
    {
      PlusNothing(L);
      PlusNothing(R);
      OneSided(left, |chunk|);
      Step(if left then chunk else map[], if left then map[] else chunk);
    }

    lemma OneSided(left: bool, n: nat)
      ensures LosesMatches(if left then n else 0, if left then 0 else n) == ChunkLoses(c, shardsCfg, n, Shared(!left).Blind())
    {
      assert Shards(shardsCfg, 0) <= 1;
    }

    // Replay one source of a new view in bounded chunks. The other side is
    // either local or an arrangement that is fully integrated; this side may
    // be shared without being skipped only in an inner join.
    method ReplaySource(left: bool, chunks: seq<ZSet<Row>>)
      requires Valid() && Replayable(left) && SourceChunks(c, left, Shared(left).Share?, chunks)
      modifies this
      ensures Valid() && Replayable(left) && sharedLeft == old(sharedLeft) && sharedRight == old(sharedRight)
      ensures L == (if left then Plus(old(L), SumOf(chunks)) else old(L))
      ensures R == (if left then old(R) else Plus(old(R), SumOf(chunks)))
      ensures !SomeChunkLoses(c, shardsCfg, chunks, old(Shared(!left).Blind())) ==> Same(missing, old(missing))
    {
      PlusNothing(L);
      PlusNothing(R);
      assert chunks[..0] == [];
      for i := 0 to |chunks|
        invariant Valid() && Replayable(left) && sharedLeft == old(sharedLeft) && sharedRight == old(sharedRight)
        invariant L == (if left then Plus(old(L), SumOf(chunks[..i])) else old(L))
        invariant R == (if left then old(R) else Plus(old(R), SumOf(chunks[..i])))
        invariant !SomeChunkLoses(c, shardsCfg, chunks, old(Shared(!left).Blind())) ==> Same(missing, old(missing))
      {
        SumOfStep(if left then old(L) else old(R), chunks, i);
        ReplayNext(left, chunks, i);
      }
      assert chunks[..|chunks|] == chunks;
    }

    method ReplayNext(left: bool, chunks: seq<ZSet<Row>>, i: nat)
      requires Valid() && Replayable(left) && SourceChunks(c, left, Shared(left).Share?, chunks) && i < |chunks|
      modifies this
      ensures Valid() && Replayable(left) && sharedLeft == old(sharedLeft) && sharedRight == old(sharedRight)
      ensures L == (if left then Plus(old(L), chunks[i]) else old(L))
      ensures R == (if left then old(R) else Plus(old(R), chunks[i]))
      ensures !SomeChunkLoses(c, shardsCfg, chunks, old(Shared(!left).Blind())) ==> Same(missing, old(missing))
    {
      assert ChunkOk(c, left, Shared(left).Share?, chunks[i]);
      ReplayChunk(left, chunks[i]);
    }

    ghost predicate Replayable(left: bool)
      reads this, sharedLeft.Objects(), sharedRight.Objects()
    {
      && Shared(left).FitsSide(c, left) && (Shared(left).Share? ==> c.joinType.Inner?)
      && Shared(!left).FitsSide(c, !left) && (Shared(!left).Share? ==> Shared(!left).Content() == if left then R else L)
    }
  }

  ghost function SumOf(chunks: seq<ZSet<Row>>): ZSet<Row> {
    if chunks == [] then map[] else Plus(SumOf(chunks[..|chunks| - 1]), chunks[|chunks| - 1])
  }

  lemma SumOfStep(base: ZSet<Row>, chunks: seq<ZSet<Row>>, i: nat)
    requires i < |chunks|
    ensures Plus(base, SumOf(chunks[..i + 1])) == Plus(Plus(base, SumOf(chunks[..i])), chunks[i])
  {
    assert chunks[..i + 1][..i] == chunks[..i];
    Extensional(Plus(base, SumOf(chunks[..i + 1])), Plus(Plus(base, SumOf(chunks[..i])), chunks[i]));
  }

  // A new node's side: an arrangement holding the whole source, or none.
  ghost predicate Backfilled(c: Config, left: bool, share: Share, source: ZSet<Row>)
    reads share.Objects()
  {
    share.FitsSide(c, left) && (share.Share? ==> share.Content() == source)
  }

  // Creation of a join view over two distinct sources: arrangements are
  // registered already backfilled, their sources are skipped by the replay
  // (only the right one when both sides are shared), the others are replayed
  // in chunks. The node then holds exactly the join of both sources, unless a
  // large chunk was probed in parallel against a projected packed arrangement.
  method CreateJoin(c: Config, shardsCfg: nat, shareLeft: Share, shareRight: Share,
                    leftChunks: seq<ZSet<Row>>, rightChunks: seq<ZSet<Row>>, leftFirst: bool)
    returns (node: PlanJoinNode)
    requires SourceChunks(c, true, shareLeft.Share?, leftChunks) && SourceChunks(c, false, shareRight.Share?, rightChunks)
    requires Backfilled(c, true, shareLeft, SumOf(leftChunks)) && Backfilled(c, false, shareRight, SumOf(rightChunks))
    requires shareLeft.Share? && shareRight.Share? ==> c.joinType.Inner?
    ensures fresh(node) && node.Valid()
    ensures node.L == SumOf(leftChunks) && node.R == SumOf(rightChunks)
    ensures !SomeReplayLoses(c, shardsCfg, leftChunks, rightChunks, shareLeft, shareRight) ==>
              forall o {:trigger W(node.emitted, o)} ::
                W(node.emitted, o) == SpecWeight(c, SumOf(leftChunks), SumOf(rightChunks), o)
  {
    ChunksNonNeg(c, true, shareLeft.Share?, leftChunks);
    ChunksNonNeg(c, false, shareRight.Share?, rightChunks);
    node := ShareSides(c, shardsCfg, shareLeft, shareRight, SumOf(leftChunks), SumOf(rightChunks));
    ReplayBoth(node, leftChunks, rightChunks, leftFirst);
  }

  method ReplayBoth(node: PlanJoinNode, leftChunks: seq<ZSet<Row>>, rightChunks: seq<ZSet<Row>>, leftFirst: bool)
    requires Filling(node, SumOf(leftChunks), SumOf(rightChunks)) && Zero(node.missing)
    requires SourceChunks(node.c, true, node.sharedLeft.Share?, leftChunks)
    requires SourceChunks(node.c, false, node.sharedRight.Share?, rightChunks)
    requires node.sharedLeft.NoShare? || node.sharedRight.Share? ==> node.L == map[]
    requires node.sharedRight.NoShare? ==> node.R == map[]
    modifies node
    ensures node.Valid() && node.L == SumOf(leftChunks) && node.R == SumOf(rightChunks)
    ensures !SomeReplayLoses(node.c, node.shardsCfg, leftChunks, rightChunks, old(node.sharedLeft), old(node.sharedRight)) ==>
              Zero(node.missing)
  {
    if leftFirst {
      ReplayLeft(node, leftChunks, SumOf(rightChunks));
      ReplayRight(node, rightChunks, SumOf(leftChunks));
    } else {
      ReplayRight(node, rightChunks, SumOf(leftChunks));
      ReplayLeft(node, leftChunks, SumOf(rightChunks));
    }
  }

  // What holds of a new node between the replays: a side is either still
  // empty or integrated in full, and an arrangement agrees with its side.
  ghost predicate Filling(node: PlanJoinNode, left: ZSet<Row>, right: ZSet<Row>)
    reads node, node.sharedLeft.Objects(), node.sharedRight.Objects()
  {
    && node.Valid() && NonNeg(left) && NonNeg(right)
    && Backfilled(node.c, true, node.sharedLeft, left) && Backfilled(node.c, false, node.sharedRight, right)
    && (node.sharedLeft.Share? && node.sharedRight.Share? ==> node.c.joinType.Inner?)
    && (node.sharedRight.Share? ==> node.R == right)
    && (node.sharedLeft.Share? && node.sharedRight.NoShare? ==> node.L == left)
  }

  // The left source is replayed unless its arrangement stands for it.
  method ReplayLeft(node: PlanJoinNode, chunks: seq<ZSet<Row>>, ghost right: ZSet<Row>)
    requires Filling(node, SumOf(chunks), right) && SourceChunks(node.c, true, node.sharedLeft.Share?, chunks)
    requires node.sharedLeft.NoShare? || node.sharedRight.Share? ==> node.L == map[]
    modifies node
    ensures Filling(node, SumOf(chunks), right)
    ensures node.sharedLeft == old(node.sharedLeft) && node.sharedRight == old(node.sharedRight)
    ensures node.L == SumOf(chunks) && node.R == old(node.R)
    ensures !SomeChunkLoses(node.c, node.shardsCfg, chunks, old(node.sharedRight.Blind())) ==> Same(node.missing, old(node.missing))
  {
    ChunksNonNeg(node.c, true, node.sharedLeft.Share?, chunks);
    if node.sharedLeft.NoShare? || node.sharedRight.Share? {
      node.ReplaySource(true, chunks);
    }
  }

  // The right source is replayed unless it is shared.
  method ReplayRight(node: PlanJoinNode, chunks: seq<ZSet<Row>>, ghost left: ZSet<Row>)
    requires Filling(node, left, SumOf(chunks)) && SourceChunks(node.c, false, node.sharedRight.Share?, chunks)
    requires node.sharedRight.NoShare? ==> node.R == map[]
    modifies node
    ensures Filling(node, left, SumOf(chunks))
    ensures node.sharedLeft == old(node.sharedLeft) && node.sharedRight == old(node.sharedRight)
    ensures node.L == old(node.L) && node.R == SumOf(chunks)
    ensures !SomeChunkLoses(node.c, node.shardsCfg, chunks, old(node.sharedLeft.Blind())) ==> Same(node.missing, old(node.missing))
  {
    ChunksNonNeg(node.c, false, node.sharedRight.Share?, chunks);
    if node.sharedRight.NoShare? {
      node.ReplaySource(false, chunks);
    }
  }

  // A new node over its arrangements, before the replay.
  method ShareSides(c: Config, shardsCfg: nat, shareLeft: Share, shareRight: Share, ghost left: ZSet<Row>, ghost right: ZSet<Row>)
    returns (node: PlanJoinNode)
    requires NonNeg(left) && NonNeg(right)
    requires Backfilled(c, true, shareLeft, left) && Backfilled(c, false, shareRight, right)
    requires shareLeft.Share? && shareRight.Share? ==> c.joinType.Inner?
    ensures fresh(node) && node.Valid() && node.c == c && node.shardsCfg == shardsCfg && Zero(node.missing)
    ensures node.sharedLeft == shareLeft && node.sharedRight == shareRight
    ensures Filling(node, left, right)
    ensures shareLeft.NoShare? || shareRight.Share? ==> node.L == map[]
    ensures shareRight.NoShare? ==> node.R == map[]
  {
    node := new PlanJoinNode(c, shardsCfg);
    if shareRight.Share? {
      node.SetSharedArrangement(false, shareRight, true);
    }
    AddLeft(node, shareLeft, shareRight, left, right);
  }

  method AddLeft(node: PlanJoinNode, shareLeft: Share, shareRight: Share, ghost left: ZSet<Row>, ghost right: ZSet<Row>)
    requires NonNeg(left) && NonNeg(right) && node.Valid() && node.emitted == map[] && Zero(node.missing)
    requires Backfilled(node.c, true, shareLeft, left) && Backfilled(node.c, false, shareRight, right)
    requires shareLeft.Share? && shareRight.Share? ==> node.c.joinType.Inner?
    requires node.sharedLeft == NoShare && node.sharedRight == shareRight
    requires node.L == map[] && node.R == if shareRight.Share? then right else map[]
    modifies node
    ensures node.Valid() && Zero(node.missing)
    ensures node.sharedLeft == shareLeft && node.sharedRight == shareRight
    ensures Filling(node, left, right)
    ensures shareLeft.NoShare? || shareRight.Share? ==> node.L == map[]
    ensures shareRight.NoShare? ==> node.R == map[]
  {
    if shareLeft.Share? {
      node.SetSharedArrangement(true, shareLeft, shareRight.NoShare?);
    }
  }

  lemma ChunksNonNeg(c: Config, left: bool, shared: bool, chunks: seq<ZSet<Row>>)
    requires SourceChunks(c, left, shared, chunks)
    ensures NonNeg(SumOf(chunks)) && Normal(SumOf(chunks)) && Plus(map[], SumOf(chunks)) == SumOf(chunks)
  {
    forall i | 0 <= i < |chunks| ensures NonNeg(chunks[i]) {
      assert ChunkOk(c, left, shared, chunks[i]);
    }
    SumOfNonNeg(chunks);
  }

  lemma {:induction false} SumOfNonNeg(chunks: seq<ZSet<Row>>)
    requires forall i {:trigger chunks[i]} :: 0 <= i < |chunks| ==> NonNeg(chunks[i])
    ensures NonNeg(SumOf(chunks)) && Normal(SumOf(chunks)) && Plus(map[], SumOf(chunks)) == SumOf(chunks)
  {
    if chunks != [] {
      SumOfNonNeg(chunks[..|chunks| - 1]);
    }
    Extensional(Plus(map[], SumOf(chunks)), SumOf(chunks));
  }
}
