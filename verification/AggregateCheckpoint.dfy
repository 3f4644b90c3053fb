// The state of an aggregate node through its blob
// (include/dbsp_plan_aggregate.hpp).
module AggregateBlobs {
  import opened ZSets
  import opened Rows
  import opened Buckets
  import opened ByteStrings
  import opened BlobFormat
  import opened GroupSemantics
  import opened GroupState
  import AggregateNode

  // Aggregates whose state is counters and a count map.
  predicate Serializable(q: Query) {
    forall i :: 0 <= i < |q.aggs| ==> !q.aggs[i].distinct
  }

  // ---- the count map, expanded to unit values and recounted ----

  function Recount(vals: Row): ZSet<int> {
    if vals == [] then map[]
    else
      var m := Recount(vals[..|vals| - 1]);
      var v := vals[|vals| - 1];
      if v.Val? then Insert(m, v.v, 1) else m
  }

  lemma {:induction false} RecountCounts(vals: Row)
    ensures Normal(Recount(vals))
    ensures forall v {:trigger W(Recount(vals), v)} :: W(Recount(vals), v) == multiset(vals)[Val(v)]
  {
    if vals != [] {
      RecountCounts(vals[..|vals| - 1]);
      assert vals == vals[..|vals| - 1] + [vals[|vals| - 1]];
    }
  }

  // The value sequence a count map is written as: each value count times.
  ghost predicate Expanded(counts: ZSet<int>, vals: Row) {
    forall v {:trigger W(counts, v)} {:trigger multiset(vals)[Val(v)]} ::
      multiset(vals)[Val(v)] == if W(counts, v) > 0 then W(counts, v) else 0
  }

  // Recounting gives the map back exactly if no count is negative.
  lemma RecountedIff(counts: ZSet<int>, vals: Row)
    requires Normal(counts) && Expanded(counts, vals)
    ensures Recount(vals) == counts <==> NonNeg(counts)
  {
    RecountCounts(vals);
    if NonNeg(counts) {
      forall v ensures W(Recount(vals), v) == W(counts, v) {
        assert multiset(vals)[Val(v)] == W(counts, v);
      }
      Extensional(Recount(vals), counts);
    }
    if Recount(vals) == counts {
      forall v ensures W(counts, v) >= 0 {
        assert W(Recount(vals), v) == multiset(vals)[Val(v)];
      }
    }
  }

  method Repeat(vals0: Row, v: int, c: int) returns (vals: Row)
    ensures multiset(vals) == multiset(vals0)[Val(v) := multiset(vals0)[Val(v)] + if c > 0 then c else 0]
  {
    vals := vals0;
    var k := 0;
    while k < c
      invariant k == 0 || k <= c
      invariant k >= 0 && multiset(vals) == multiset(vals0)[Val(v) := multiset(vals0)[Val(v)] + k]
    {
      vals := vals + [Val(v)];
      k := k + 1;
    }
  }

  method Expand(counts: ZSet<int>) returns (vals: Row)
    ensures Expanded(counts, vals)
  {
    vals := [];
    var todo := counts.Keys;
    while todo != {}
      invariant forall v {:trigger multiset(vals)[Val(v)]} ::
                  multiset(vals)[Val(v)] == if v !in todo && W(counts, v) > 0 then W(counts, v) else 0
      decreases todo
    {
      var v := GroupState.Pick(todo);
      vals := Repeat(vals, v, counts[v]);
      todo := todo - {v};
    }
  }

  // ---- what is written ----

  // count, integer sum; float bits, high word; low word, values.
  type AggImage = ((int, int), ((nat, int), (nat, Bytes)))
  type GroupImage = ((Bytes, int), seq<AggImage>)
  type NodeImage = ((nat, nat), seq<GroupImage>)

  function TwoI64(x: (int, int)): Bytes { I64(x.0) + I64(x.1) }
  function MiddleBytes(x: (nat, int)): Bytes { U64(x.0) + I64(x.1) }
  function LastBytes(x: (nat, Bytes)): Bytes { U64(x.0) + Chunk(x.1) }
  function TailBytes(x: ((nat, int), (nat, Bytes))): Bytes { MiddleBytes(x.0) + LastBytes(x.1) }
  function AggBytes(x: AggImage): Bytes { TwoI64(x.0) + TailBytes(x.1) }
  function HeadBytes(x: (Bytes, int)): Bytes { Chunk(x.0) + I64(x.1) }
  function AggsBytes(x: seq<AggImage>): Bytes { ListBlob(x, AggBytes) }
  function GroupBytes(x: GroupImage): Bytes { HeadBytes(x.0) + AggsBytes(x.1) }
  function FlagBytes(x: (nat, nat)): Bytes { U64(x.0) + U64(x.1) }
  function GroupsBytes(x: seq<GroupImage>): Bytes { ListBlob(x, GroupBytes) }
  function NodeBytes(x: NodeImage): Bytes { FlagBytes(x.0) + GroupsBytes(x.1) }

  function ReadTwoI64(b: Bytes, p: nat): Option<((int, int), nat)> { ReadPair(b, p, ReadI64, ReadI64) }
  function ReadMiddle(b: Bytes, p: nat): Option<((nat, int), nat)> { ReadPair(b, p, ReadU64, ReadI64) }
  function ReadLast(b: Bytes, p: nat): Option<((nat, Bytes), nat)> { ReadPair(b, p, ReadU64, ReadChunk) }
  function ReadTail(b: Bytes, p: nat): Option<(((nat, int), (nat, Bytes)), nat)> { ReadPair(b, p, ReadMiddle, ReadLast) }
  function ReadAgg(b: Bytes, p: nat): Option<(AggImage, nat)> { ReadPair(b, p, ReadTwoI64, ReadTail) }
  function ReadHead(b: Bytes, p: nat): Option<((Bytes, int), nat)> { ReadPair(b, p, ReadChunk, ReadI64) }
  function ReadAggs(b: Bytes, p: nat): Option<(seq<AggImage>, nat)> { ReadList(b, p, ReadAgg) }
  function ReadGroup(b: Bytes, p: nat): Option<(GroupImage, nat)> { ReadPair(b, p, ReadHead, ReadAggs) }
  function ReadFlags(b: Bytes, p: nat): Option<((nat, nat), nat)> { ReadPair(b, p, ReadU64, ReadU64) }
  function ReadGroups(b: Bytes, p: nat): Option<(seq<GroupImage>, nat)> { ReadList(b, p, ReadGroup) }
  function ReadNode(b: Bytes, p: nat): Option<(NodeImage, nat)> { ReadPair(b, p, ReadFlags, ReadGroups) }

  // ---- reading back, within the machine's widths ----

  predicate AggFits(x: AggImage) {
    && Int64(x.0.0) && Int64(x.0.1) && x.1.0.0 < Size() && Int64(x.1.0.1) && x.1.1.0 < Size() && |x.1.1.1| < Size()
  }

  predicate GroupFits(x: GroupImage) {
    && |x.0.0| < Size() && Int64(x.0.1) && |x.1| < Size()
    && forall i {:trigger x.1[i]} :: 0 <= i < |x.1| ==> AggFits(x.1[i])
  }

  predicate NodeFits(x: NodeImage) {
    && x.0.0 < Size() && x.0.1 < Size() && |x.1| < Size()
    && forall i {:trigger x.1[i]} :: 0 <= i < |x.1| ==> GroupFits(x.1[i])
  }

  lemma AggReadsBack(x: AggImage)
    requires AggFits(x)
    ensures ReadsBack(ReadAgg, AggBytes(x), x)
  {
    var ((count, isum), ((bits, upper), (lower, vals))) := x;
    I64ReadsBack(count);
    I64ReadsBack(isum);
    PairReadsBack(ReadTwoI64, ReadI64, ReadI64, I64(count), I64(isum), count, isum);
    TailReadsBack(bits, upper, lower, vals);
    PairReadsBack(ReadAgg, ReadTwoI64, ReadTail, TwoI64((count, isum)), TailBytes(((bits, upper), (lower, vals))),
                  (count, isum), ((bits, upper), (lower, vals)));
  }

  lemma TailReadsBack(bits: nat, upper: int, lower: nat, vals: Bytes)
    requires bits < Size() && Int64(upper) && lower < Size() && |vals| < Size()
    ensures ReadsBack(ReadTail, TailBytes(((bits, upper), (lower, vals))), ((bits, upper), (lower, vals)))
  {
    U64ReadsBack(bits);
    I64ReadsBack(upper);
    U64ReadsBack(lower);
    ChunkReadsBack(vals);
    PairReadsBack(ReadMiddle, ReadU64, ReadI64, U64(bits), I64(upper), bits, upper);
    PairReadsBack(ReadLast, ReadU64, ReadChunk, U64(lower), Chunk(vals), lower, vals);
    PairReadsBack(ReadTail, ReadMiddle, ReadLast, MiddleBytes((bits, upper)), LastBytes((lower, vals)), (bits, upper), (lower, vals));
  }

  lemma GroupReadsBack(x: GroupImage)
    requires GroupFits(x)
    ensures ReadsBack(ReadGroup, GroupBytes(x), x)
  {
    var ((key, weight), aggs) := x;
    ChunkReadsBack(key);
    I64ReadsBack(weight);
    PairReadsBack(ReadHead, ReadChunk, ReadI64, Chunk(key), I64(weight), key, weight);
    forall i | 0 <= i < |aggs| ensures ReadsBack(ReadAgg, AggBytes(aggs[i]), aggs[i]) {
      assert AggFits(x.1[i]);
      AggReadsBack(aggs[i]);
    }
    ListReadsBack(ReadAggs, ReadAgg, AggBytes, aggs);
    PairReadsBack(ReadGroup, ReadHead, ReadAggs, HeadBytes((key, weight)), AggsBytes(aggs), (key, weight), aggs);
  }

  lemma NodeReadsBack(x: NodeImage)
    requires NodeFits(x)
    ensures ReadNode(NodeBytes(x), 0) == Some((x, |NodeBytes(x)|))
  {
    var ((flag, n), groups) := x;
    U64ReadsBack(flag);
    U64ReadsBack(n);
    PairReadsBack(ReadFlags, ReadU64, ReadU64, U64(flag), U64(n), flag, n);
    forall i | 0 <= i < |groups| ensures ReadsBack(ReadGroup, GroupBytes(groups[i]), groups[i]) {
      assert GroupFits(x.1[i]);
      GroupReadsBack(groups[i]);
    }
    ListReadsBack(ReadGroups, ReadGroup, GroupBytes, groups);
    PairReadsBack(ReadNode, ReadFlags, ReadGroups, FlagBytes((flag, n)), GroupsBytes(groups), (flag, n), groups);
    assert StartsAt(NodeBytes(x), 0, NodeBytes(x));
  }
}

// An aggregate node saved and restored.
module AggregateCheckpoint {
  import opened ZSets
  import opened Rows
  import opened Buckets
  import opened BlobFormat
  import opened JoinBlobs
  import opened GroupSemantics
  import opened GroupState
  import opened AggregateNode
  import opened AggregateBlobs

  // Which aggregates sum in the 128-bit accumulator (DECIMAL arguments); the
  // others sum in 64 bits.
  type Wide = nat -> bool

  function ImageSum(wide: bool, x: AggImage): int {
    if wide then x.1.0.1 * Size() + x.1.1.0 else x.0.1
  }

  // ---- writing ----

  ghost predicate AggImaged(cd: RowCodec, wide: bool, s: AggState, x: AggImage) {
    && x.0.0 == s.count && ImageSum(wide, x) == s.sum
    && (|x.1.1.1| < Size() ==> Expanded(s.vcounts, cd.deser(x.1.1.1)))
  }

  ghost predicate AggsImaged(cd: RowCodec, wide: Wide, aggs: seq<AggState>, xs: seq<AggImage>) {
    |xs| == |aggs| && forall i {:trigger xs[i]} {:trigger aggs[i]} :: 0 <= i < |aggs| ==> AggImaged(cd, wide(i), aggs[i], xs[i])
  }

  ghost predicate GroupImaged(cd: RowCodec, wide: Wide, key: Row, g: Group, x: GroupImage) {
    && (|x.0.0| < Size() ==> cd.deser(x.0.0) == key)
    && x.0.1 == g.rowWeight && AggsImaged(cd, wide, g.aggs, x.1)
  }

  lemma SplitSum(n: int)
    ensures n / Size() * Size() + n % Size() == n
  {
  }

  method WriteAgg(w: BlobWriter, cd: RowCodec, wide: bool, s: AggState) returns (ghost x: AggImage)
    requires Faithful(cd)
    modifies w
    ensures AggImaged(cd, wide, s, x) && w.bytes == old(w.bytes) + AggBytes(x)
  {
    SplitSum(s.sum);
    var isum, upper, lower := if wide then 0 else s.sum, if wide then s.sum / Size() else 0, if wide then s.sum % Size() else 0;
    var vals := Expand(s.vcounts);
    ghost var start := w.bytes;
    w.PutI64(s.count);
    w.PutI64(isum);
    w.PutU64(0);
    w.PutI64(upper);
    w.PutU64(lower);
    w.PutBytes(cd.ser(vals));
    x := ((s.count, isum), ((0, upper), (lower, cd.ser(vals))));
    Regroup6(start, I64(s.count), I64(isum), U64(0), I64(upper), U64(lower), Chunk(cd.ser(vals)));
  }

  lemma Regroup6(start: Bytes, a: Bytes, b: Bytes, c: Bytes, d: Bytes, e: Bytes, f: Bytes)
    ensures start + a + b + c + d + e + f == start + ((a + b) + ((c + d) + (e + f)))
  {
  }

  lemma Regroup3(a: Bytes, b: Bytes, c: Bytes, d: Bytes)
    ensures a + b + c + d == a + ((b + c) + d)
    ensures a + b + c == a + (b + c)
  {
  }

  method WriteNextAgg(w: BlobWriter, cd: RowCodec, wide: bool, s: AggState, ghost start: Bytes, ghost xs: seq<AggImage>)
    returns (ghost x: AggImage)
    requires Faithful(cd) && w.bytes == start + ConcatMap(xs, AggBytes)
    modifies w
    ensures AggImaged(cd, wide, s, x) && w.bytes == start + ConcatMap(xs + [x], AggBytes)
  {
    x := WriteAgg(w, cd, wide, s);
    ConcatMapPush(xs, AggBytes, x);
    Regroup3(start, ConcatMap(xs, AggBytes), AggBytes(x), []);
  }

  method WriteAggs(w: BlobWriter, cd: RowCodec, wide: Wide, aggs: seq<AggState>) returns (ghost xs: seq<AggImage>)
    requires Faithful(cd)
    modifies w
    ensures AggsImaged(cd, wide, aggs, xs) && w.bytes == old(w.bytes) + AggsBytes(xs)
  {
    ghost var before := w.bytes;
    w.PutU64(|aggs|);
    ghost var start := w.bytes;
    xs := [];
    for i := 0 to |aggs|
      invariant AggsImaged(cd, wide, aggs[..i], xs)
      invariant w.bytes == start + ConcatMap(xs, AggBytes)
    {
      ghost var x := WriteNextAgg(w, cd, wide(i), aggs[i], start, xs);
      xs := xs + [x];
    }
    assert aggs[..|aggs|] == aggs;
    Regroup3(before, U64(|aggs|), ConcatMap(xs, AggBytes), []);
  }

  method WriteGroup(w: BlobWriter, cd: RowCodec, wide: Wide, key: Row, g: Group) returns (ghost x: GroupImage)
    requires Faithful(cd)
    modifies w
    ensures GroupImaged(cd, wide, key, g, x) && w.bytes == old(w.bytes) + GroupBytes(x)
  {
    ghost var start := w.bytes;
    w.PutBytes(cd.ser(key));
    w.PutI64(g.rowWeight);
    ghost var xs := WriteAggs(w, cd, wide, g.aggs);
    x := ((cd.ser(key), g.rowWeight), xs);
    Regroup3(start, Chunk(cd.ser(key)), I64(g.rowWeight), AggsBytes(xs));
  }

  // Every group of the node once, in some order.
  ghost predicate GroupsImaged(cd: RowCodec, wide: Wide, states: States, keys: seq<Row>, xs: seq<GroupImage>) {
    && |keys| == |xs| && (forall i, j :: 0 <= i < j < |keys| ==> keys[i] != keys[j])
    && forall i {:trigger keys[i]} {:trigger xs[i]} :: 0 <= i < |keys| ==>
         keys[i] in states && GroupImaged(cd, wide, keys[i], states[keys[i]], xs[i])
  }

  ghost predicate Writing(cd: RowCodec, wide: Wide, states: States, todo: set<Row>, keys: seq<Row>, xs: seq<GroupImage>) {
    && todo <= states.Keys && |xs| + |todo| == |states|
    && (forall k :: k in keys <==> k in states && k !in todo)
    && GroupsImaged(cd, wide, states, keys, xs)
  }

  lemma WritingStep(cd: RowCodec, wide: Wide, states: States, todo: set<Row>, keys: seq<Row>, xs: seq<GroupImage>, k: Row, x: GroupImage)
    requires Writing(cd, wide, states, todo, keys, xs) && k in todo && GroupImaged(cd, wide, k, states[k], x)
    ensures Writing(cd, wide, states, todo - {k}, keys + [k], xs + [x])
  {
    var keys' := keys + [k];
    forall y ensures y in keys' <==> y in states && y !in todo - {k} {
    }
    assert GroupsImaged(cd, wide, states, keys', xs + [x]) by {
      assert forall i :: 0 <= i < |keys| ==> keys[i] in keys;
    }
  }

  method WriteNext(w: BlobWriter, cd: RowCodec, wide: Wide, k: Row, g: Group, ghost start: Bytes, ghost xs: seq<GroupImage>)
    returns (ghost x: GroupImage)
    requires Faithful(cd) && w.bytes == start + ConcatMap(xs, GroupBytes)
    modifies w
    ensures GroupImaged(cd, wide, k, g, x) && w.bytes == start + ConcatMap(xs + [x], GroupBytes)
  {
    x := WriteGroup(w, cd, wide, k, g);
    ConcatMapPush(xs, GroupBytes, x);
    Regroup3(start, ConcatMap(xs, GroupBytes), GroupBytes(x), []);
  }

  method WriteGroups(w: BlobWriter, cd: RowCodec, wide: Wide, states: States) returns (ghost keys: seq<Row>, ghost xs: seq<GroupImage>)
    requires Faithful(cd)
    modifies w
    ensures GroupsImaged(cd, wide, states, keys, xs) && (forall k :: k in states <==> k in keys)
    ensures w.bytes == old(w.bytes) + GroupsBytes(xs)
  {
    ghost var before := w.bytes;
    w.PutU64(|states|);
    ghost var start := w.bytes;
    keys, xs := [], [];
    var todo := states.Keys;
    while todo != {}
      invariant Writing(cd, wide, states, todo, keys, xs)
      invariant w.bytes == start + ConcatMap(xs, GroupBytes)
      decreases |todo|
    {
      var k :| k in todo;
      ghost var x := WriteNext(w, cd, wide, k, states[k], start, xs);
      WritingStep(cd, wide, states, todo, keys, xs, k, x);
      keys, xs := keys + [k], xs + [x];
      todo := todo - {k};
    }
    Regroup3(before, U64(|states|), ConcatMap(xs, GroupBytes), []);
  }

  method SerializeState(node: PlanAggregateNode, cd: RowCodec, wide: Wide)
    returns (blob: Bytes, ghost keys: seq<Row>, ghost x: NodeImage)
    requires Faithful(cd)
    ensures GroupsImaged(cd, wide, node.states, keys, x.1) && forall k :: k in node.states <==> k in keys
    ensures x.0 == (if node.globalEmitted then 1 else 0, |node.q.aggs|) && blob == NodeBytes(x)
  {
    var w := new BlobWriter();
    w.PutU64(if node.globalEmitted then 1 else 0);
    w.PutU64(|node.q.aggs|);
    ghost var flags := (if node.globalEmitted then 1 else 0, |node.q.aggs|);
    assert w.bytes == FlagBytes(flags);
    ghost var xs;
    keys, xs := WriteGroups(w, cd, wide, node.states);
    blob, x := w.bytes, (flags, xs);
  }

  // ---- restoring ----

  function AggOf(cd: RowCodec, wide: bool, x: AggImage): AggState {
    AggState(x.0.0, ImageSum(wide, x), Recount(cd.deser(x.1.1.1)), map[])
  }

  function AggsOf(cd: RowCodec, wide: Wide, xs: seq<AggImage>): (aggs: seq<AggState>)
    ensures |aggs| == |xs| && forall i :: 0 <= i < |xs| ==> aggs[i] == AggOf(cd, wide(i), xs[i])
  {
    seq(|xs|, i requires 0 <= i < |xs| => AggOf(cd, wide(i), xs[i]))
  }

  function GroupOf(cd: RowCodec, wide: Wide, x: GroupImage): Group {
    Group(x.0.1, AggsOf(cd, wide, x.1))
  }

  // Groups read one by one into the map; a repeated key keeps its first state.
  function StatesOf(cd: RowCodec, wide: Wide, xs: seq<GroupImage>): States {
    if xs == [] then map[]
    else
      var m := StatesOf(cd, wide, xs[..|xs| - 1]);
      var x := xs[|xs| - 1];
      if cd.deser(x.0.0) in m then m else m[cd.deser(x.0.0) := GroupOf(cd, wide, x)]
  }

  method RecountAll(vals: Row) returns (m: ZSet<int>)
    ensures m == Recount(vals)
  {
    m := map[];
    for i := 0 to |vals|
      invariant m == Recount(vals[..i])
    {
      assert vals[..i + 1][..i] == vals[..i];
      if vals[i].Val? {
        m := Insert(m, vals[i].v, 1);
      }
    }
    assert vals[..|vals|] == vals;
  }

  method TakeScalars(r: BlobReader) returns (x: Option<(int, int)>)
    modifies r
    ensures Took(ReadTwoI64, r.data, old(r.pos), x, r.pos)
  {
    var count := r.TakeI64();
    if count.None? {
      return None;
    }
    var isum := r.TakeI64();
    if isum.None? {
      return None;
    }
    x := Some((count.value, isum.value));
  }

  method TakeMiddle(r: BlobReader) returns (x: Option<(nat, int)>)
    modifies r
    ensures Took(ReadMiddle, r.data, old(r.pos), x, r.pos)
  {
    var bits := r.TakeU64();
    if bits.None? {
      return None;
    }
    var upper := r.TakeI64();
    if upper.None? {
      return None;
    }
    x := Some((bits.value, upper.value));
  }

  method TakeLast(r: BlobReader) returns (x: Option<(nat, Bytes)>)
    modifies r
    ensures Took(ReadLast, r.data, old(r.pos), x, r.pos)
  {
    var lower := r.TakeU64();
    if lower.None? {
      return None;
    }
    var vals := r.TakeBytes();
    if vals.None? {
      return None;
    }
    x := Some((lower.value, vals.value));
  }

  method TakeTail(r: BlobReader) returns (x: Option<((nat, int), (nat, Bytes))>)
    modifies r
    ensures Took(ReadTail, r.data, old(r.pos), x, r.pos)
  {
    var middle := TakeMiddle(r);
    if middle.None? {
      return None;
    }
    var last := TakeLast(r);
    if last.None? {
      return None;
    }
    x := Some((middle.value, last.value));
  }

  method RestoreAgg(r: BlobReader, cd: RowCodec, wide: bool) returns (s: Option<AggState>, ghost x: AggImage)
    modifies r
    ensures Took(ReadAgg, r.data, old(r.pos), if s.Some? then Some(x) else None, r.pos)
    ensures s.Some? ==> s.value == AggOf(cd, wide, x)
  {
    x := ((0, 0), ((0, 0), (0, [])));
    var scalars := TakeScalars(r);
    if scalars.None? {
      return None, x;
    }
    var tail := TakeTail(r);
    if tail.None? {
      return None, x;
    }
    x := (scalars.value, tail.value);
    var ((bits, upper), (lower, vals)) := tail.value;
    var vcounts := RecountAll(cd.deser(vals));
    s := Some(AggState(scalars.value.0, if wide then upper * Size() + lower else scalars.value.1, vcounts, map[]));
  }

  lemma AggsOfPush(cd: RowCodec, wide: Wide, xs: seq<AggImage>, x: AggImage)
    ensures AggsOf(cd, wide, xs + [x]) == AggsOf(cd, wide, xs) + [AggOf(cd, wide(|xs|), x)]
  {
  }

  method RestoreAggs(r: BlobReader, cd: RowCodec, wide: Wide) returns (aggs: Option<seq<AggState>>, ghost xs: seq<AggImage>)
    modifies r
    ensures Took(ReadAggs, r.data, old(r.pos), if aggs.Some? then Some(xs) else None, r.pos)
    ensures aggs.Some? ==> aggs.value == AggsOf(cd, wide, xs)
  {
    xs := [];
    ghost var start := r.pos;
    var n := r.TakeU64();
    if n.None? {
      return None, xs;
    }
    var m: seq<AggState> := [];
    for i := 0 to n.value
      invariant ReadN(r.data, start + 8, i, ReadAgg) == Some((xs, r.pos)) && |xs| == i
      invariant m == AggsOf(cd, wide, xs)
    {
      ghost var at := r.pos;
      var s, x := RestoreAgg(r, cd, wide(i));
      ReadNNext(r.data, start + 8, i, n.value, ReadAgg, xs, at, if s.Some? then Some(x) else None, r.pos);
      if s.None? {
        return None, xs;
      }
      AggsOfPush(cd, wide, xs, x);
      m, xs := m + [s.value], xs + [x];
    }
    aggs := Some(m);
  }

  method RestoreGroup(r: BlobReader, cd: RowCodec, wide: Wide) returns (key: Row, g: Option<Group>, ghost x: GroupImage)
    modifies r
    ensures Took(ReadGroup, r.data, old(r.pos), if g.Some? then Some(x) else None, r.pos)
    ensures g.Some? ==> key == cd.deser(x.0.0) && g.value == GroupOf(cd, wide, x)
  {
    key, g, x := [], None, (([], 0), []);
    var bytes := r.TakeBytes();
    if bytes.None? {
      return;
    }
    var weight := r.TakeI64();
    if weight.None? {
      return;
    }
    var aggs, xs := RestoreAggs(r, cd, wide);
    if aggs.None? {
      return;
    }
    key, g, x := cd.deser(bytes.value), Some(Group(weight.value, aggs.value)), ((bytes.value, weight.value), xs);
  }

  method RestoreGroups(r: BlobReader, cd: RowCodec, wide: Wide) returns (states: Option<States>, ghost xs: seq<GroupImage>)
    modifies r
    ensures Took(ReadGroups, r.data, old(r.pos), if states.Some? then Some(xs) else None, r.pos)
    ensures states.Some? ==> states.value == StatesOf(cd, wide, xs)
  {
    xs := [];
    ghost var start := r.pos;
    var n := r.TakeU64();
    if n.None? {
      return None, xs;
    }
    var m: States := map[];
    for i := 0 to n.value
      invariant ReadN(r.data, start + 8, i, ReadGroup) == Some((xs, r.pos))
      invariant m == StatesOf(cd, wide, xs)
    {
      ghost var at := r.pos;
      var key, g, x := RestoreGroup(r, cd, wide);
      ReadNNext(r.data, start + 8, i, n.value, ReadGroup, xs, at, if g.Some? then Some(x) else None, r.pos);
      if g.None? {
        return None, xs;
      }
      assert (xs + [x])[..|xs|] == xs;
      xs := xs + [x];
      m := if key in m then m else m[key := g.value];
    }
    states := Some(m);
  }

  // Read to its end, and written for as many aggregates as the node has.
  predicate Accepted(q: Query, b: Bytes) {
    ReadNode(b, 0).Some? && ReadNode(b, 0).value.0.0.1 == |q.aggs| && ReadNode(b, 0).value.1 == |b|
  }

  method RestoreState(node: PlanAggregateNode, cd: RowCodec, wide: Wide, blob: Bytes) returns (ok: bool)
    modifies node`states, node`globalEmitted
    ensures ok <==> Accepted(node.q, blob)
    ensures ok ==> var x := ReadNode(blob, 0).value.0;
                   node.states == StatesOf(cd, wide, x.1) && (node.globalEmitted <==> x.0.0 != 0)
  {
    var r := new BlobReader(blob);
    var flag := r.TakeU64();
    if flag.None? {
      return false;
    }
    node.globalEmitted := flag.value != 0;
    var n := r.TakeU64();
    if n != Some(|node.q.aggs|) {
      return false;
    }
    node.states := map[];
    var states, xs := RestoreGroups(r, cd, wide);
    if states.None? {
      return false;
    }
    node.states := states.value;
    assert ReadNode(blob, 0) == Some((((flag.value, n.value), xs), r.pos));
    ok := r.Done();
  }

  // ---- transparency ----

  // A restored accumulator says the same of SQL.
  lemma RestoredAgg(q: Query, a: AggSpec, k: Row, cd: RowCodec, wide: bool, s: AggState, x: AggImage, z: ZSet<Row>)
    requires NonNeg(z) && !a.distinct && AggTrue(q, a, k, s, z) && AggImaged(cd, wide, s, x) && |x.1.1.1| < Size()
    ensures AggTrue(q, a, k, AggOf(cd, wide, x), z)
  {
    if a.fn.Min? || a.fn.Max? {
      forall v ensures W(s.vcounts, v) >= 0 {
        DistinctIff(q, a, k, z, v);
        assert W(s.vcounts, v) == Multiplicity(q, a, k, z, v);
      }
      RecountedIff(s.vcounts, cd.deser(x.1.1.1));
    }
  }

  lemma RestoredGroup(q: Query, k: Row, cd: RowCodec, wide: Wide, g: Group, x: GroupImage, z: ZSet<Row>)
    requires NonNeg(z) && Serializable(q) && GroupTrue(q, k, g, z) && GroupImaged(cd, wide, k, g, x) && GroupFits(x)
    ensures GroupTrue(q, k, GroupOf(cd, wide, x), z)
  {
    forall i | 0 <= i < |q.aggs| ensures AggTrue(q, q.aggs[i], k, GroupOf(cd, wide, x).aggs[i], z) {
      assert AggFits(x.1[i]) && AggImaged(cd, wide(i), g.aggs[i], x.1[i]);
      RestoredAgg(q, q.aggs[i], k, cd, wide(i), g.aggs[i], x.1[i], z);
    }
  }

  // The states hold exactly the groups of the images.
  ghost predicate StatesAre(cd: RowCodec, wide: Wide, keys: seq<Row>, xs: seq<GroupImage>, m: States) {
    && |keys| == |xs| && (forall k :: k in m <==> k in keys)
    && forall i {:trigger keys[i]} {:trigger xs[i]} :: 0 <= i < |keys| ==> m[keys[i]] == GroupOf(cd, wide, xs[i])
  }

  lemma StatesArePush(cd: RowCodec, wide: Wide, keys: seq<Row>, xs: seq<GroupImage>, m: States, k: Row, x: GroupImage)
    requires StatesAre(cd, wide, keys, xs, m) && k !in keys
    ensures StatesAre(cd, wide, keys + [k], xs + [x], m[k := GroupOf(cd, wide, x)])
  {
    forall i | 0 <= i < |keys + [k]| ensures m[k := GroupOf(cd, wide, x)][(keys + [k])[i]] == GroupOf(cd, wide, (xs + [x])[i]) {
      if i < |keys| {
        assert keys[i] in keys && m[keys[i]] == GroupOf(cd, wide, xs[i]);
      }
    }
  }

  lemma {:induction false} StatesOfAll(cd: RowCodec, wide: Wide, states: States, keys: seq<Row>, xs: seq<GroupImage>)
    requires GroupsImaged(cd, wide, states, keys, xs) && forall i :: 0 <= i < |xs| ==> GroupFits(xs[i])
    ensures StatesAre(cd, wide, keys, xs, StatesOf(cd, wide, xs))
    decreases |xs|
  {
    if xs != [] {
      var n := |xs| - 1;
      PrefixImaged(cd, wide, states, keys, xs, n);
      StatesOfAll(cd, wide, states, keys[..n], xs[..n]);
      LastKey(cd, wide, states, keys, xs);
      LastState(cd, wide, xs, keys[..n], keys[n]);
      SplitLast(keys);
    }
  }

  lemma SplitLast(keys: seq<Row>)
    requires keys != []
    ensures keys == keys[..|keys| - 1] + [keys[|keys| - 1]]
  {
  }

  lemma LastState(cd: RowCodec, wide: Wide, xs: seq<GroupImage>, keys: seq<Row>, k: Row)
    requires xs != [] && cd.deser(xs[|xs| - 1].0.0) == k && k !in keys
    requires StatesAre(cd, wide, keys, xs[..|xs| - 1], StatesOf(cd, wide, xs[..|xs| - 1]))
    ensures StatesAre(cd, wide, keys + [k], xs, StatesOf(cd, wide, xs))
  {
    var n := |xs| - 1;
    StatesArePush(cd, wide, keys, xs[..n], StatesOf(cd, wide, xs[..n]), k, xs[n]);
    assert xs == xs[..n] + [xs[n]];
  }

  lemma LastKey(cd: RowCodec, wide: Wide, states: States, keys: seq<Row>, xs: seq<GroupImage>)
    requires GroupsImaged(cd, wide, states, keys, xs) && xs != [] && GroupFits(xs[|xs| - 1])
    ensures cd.deser(xs[|xs| - 1].0.0) == keys[|xs| - 1]
  {
    assert GroupImaged(cd, wide, keys[|xs| - 1], states[keys[|xs| - 1]], xs[|xs| - 1]);
  }

  lemma PrefixImaged(cd: RowCodec, wide: Wide, states: States, keys: seq<Row>, xs: seq<GroupImage>, n: nat)
    requires GroupsImaged(cd, wide, states, keys, xs) && n < |xs|
    ensures GroupsImaged(cd, wide, states, keys[..n], xs[..n]) && keys[n] !in keys[..n]
  {
    forall i | 0 <= i < n ensures keys[..n][i] in states && GroupImaged(cd, wide, keys[..n][i], states[keys[..n][i]], xs[..n][i]) {
      assert keys[..n][i] == keys[i] && xs[..n][i] == xs[i];
    }
  }

  lemma RestoredStates(q: Query, cd: RowCodec, wide: Wide, states: States, keys: seq<Row>, xs: seq<GroupImage>, z: ZSet<Row>, k: Row)
    requires NonNeg(z) && Serializable(q) && StateTrue(q, states, z, k)
    requires GroupsImaged(cd, wide, states, keys, xs) && (forall x :: x in states <==> x in keys)
    requires forall i :: 0 <= i < |xs| ==> GroupFits(xs[i])
    ensures StateTrue(q, StatesOf(cd, wide, xs), z, k)
  {
    StatesOfAll(cd, wide, states, keys, xs);
    if k in states {
      var i :| 0 <= i < |keys| && keys[i] == k;
      RestoredGroup(q, k, cd, wide, states[k], xs[i], z);
    }
  }

  // Save `node` and restore the blob into `twin`, a node of the same query.
  method SaveAndRestore(node: PlanAggregateNode, twin: PlanAggregateNode, cd: RowCodec, wide: Wide)
    returns (ok: bool, ghost x: NodeImage)
    requires node.Valid() && Serializable(node.q) && Faithful(cd) && twin != node && twin.q == node.q
    modifies twin
    ensures x.0.1 == |node.q.aggs| && |x.1| == |node.states|
    ensures NodeFits(x) ==> ok && twin.Valid() && twin.z == node.z && twin.globalEmitted == node.globalEmitted
  {
    var blob, keys, image := SerializeState(node, cd, wide);
    x := image;
    AsMany(node.states, keys);
    if NodeFits(x) {
      NodeReadsBack(x);
      AllRestored(node.q, cd, wide, node.states, keys, x.1, node.z);
    }
    ok := Adopt(twin, cd, wide, blob, x, NodeFits(x), node.z, node.emitted, node.globalEmitted);
  }

  // What restoring must find for the node to continue over input z.
  ghost predicate Continues(q: Query, cd: RowCodec, wide: Wide, blob: Bytes, x: NodeImage, z: ZSet<Row>, emitted: ZSet<Row>, stepped: bool) {
    && KeyWidth(q) && NonNeg(z) && Normal(z) && Accepted(q, blob) && ReadNode(blob, 0).value.0 == x && (x.0.0 != 0 <==> stepped)
    && (forall k {:trigger StateTrue(q, StatesOf(cd, wide, x.1), z, k)} :: StateTrue(q, StatesOf(cd, wide, x.1), z, k))
    && forall o {:trigger W(emitted, o)} :: W(emitted, o) == SqlWeight(q, z, stepped, o)
  }

  method Adopt(twin: PlanAggregateNode, cd: RowCodec, wide: Wide, blob: Bytes, ghost x: NodeImage, ghost fits: bool,
               ghost z: ZSet<Row>, ghost emitted: ZSet<Row>, ghost stepped: bool) returns (ok: bool)
    requires fits ==> Continues(twin.q, cd, wide, blob, x, z, emitted, stepped)
    modifies twin
    ensures fits ==> ok && twin.Valid() && twin.z == z && twin.globalEmitted == stepped
  {
    ok := RestoreState(twin, cd, wide, blob);
    twin.z, twin.emitted := z, emitted;
  }

  lemma AllRestored(q: Query, cd: RowCodec, wide: Wide, states: States, keys: seq<Row>, xs: seq<GroupImage>, z: ZSet<Row>)
    requires NonNeg(z) && Serializable(q) && forall k {:trigger StateTrue(q, states, z, k)} :: StateTrue(q, states, z, k)
    requires GroupsImaged(cd, wide, states, keys, xs) && (forall x :: x in states <==> x in keys)
    requires forall i :: 0 <= i < |xs| ==> GroupFits(xs[i])
    ensures forall k {:trigger StateTrue(q, StatesOf(cd, wide, xs), z, k)} :: StateTrue(q, StatesOf(cd, wide, xs), z, k)
  {
    forall k ensures StateTrue(q, StatesOf(cd, wide, xs), z, k) {
      assert StateTrue(q, states, z, k);
      RestoredStates(q, cd, wide, states, keys, xs, z, k);
    }
  }

  lemma AsMany(states: States, keys: seq<Row>)
    requires (forall k :: k in states <==> k in keys) && forall i, j :: 0 <= i < j < |keys| ==> keys[i] != keys[j]
    ensures |keys| == |states|
  {
    SetOfSeq(keys);
    assert states.Keys == set k | k in keys;
  }

  lemma {:induction false} SetOfSeq(keys: seq<Row>)
    requires forall i, j :: 0 <= i < j < |keys| ==> keys[i] != keys[j]
    ensures |set k | k in keys| == |keys|
  {
    if keys != [] {
      var n := |keys| - 1;
      SetOfSeq(keys[..n]);
      assert keys == keys[..n] + [keys[n]];
      assert (set k | k in keys) == (set k | k in keys[..n]) + {keys[n]};
    }
  }

  ghost predicate SameDelta(a: ZSet<Row>, b: ZSet<Row>) {
    forall o :: W(a, o) == W(b, o)
  }

  // One later batch: both nodes emit the same delta and stay alike.
  method StepBoth(node: PlanAggregateNode, twin: PlanAggregateNode, delta: ZSet<Row>)
    requires node.Valid() && twin.Valid() && node != twin && node.q == twin.q && node.z == twin.z
    requires node.globalEmitted == twin.globalEmitted && NonNeg(Plus(node.z, delta))
    modifies node, twin
    ensures node.Valid() && twin.Valid() && node.z == twin.z
    ensures node.z == if delta == map[] then old(node.z) else Plus(old(node.z), delta)
    ensures SameDelta(node.output, twin.output)
    ensures node.globalEmitted == twin.globalEmitted
  {
    node.Step(delta);
    twin.Step(delta);
  }
}
