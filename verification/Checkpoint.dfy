// Checkpoint blobs: the writer and reader, and the state of join and
// aggregate nodes through them (include/dbsp_checkpoint.hpp,
// include/dbsp_plan_join.hpp, include/dbsp_plan_aggregate.hpp).
module BlobFormat {
  import opened Rows
  import opened Buckets
  import opened LittleEndian
  import opened ByteStrings

  function Size(): nat {
    Pow256(8)
  }

  predicate Int64(v: int) {
    -(Size() / 2) <= v < Size() / 2
  }

  // ---- writing ----

  function U64(n: nat): (b: Bytes)
    ensures |b| == 8
  {
    Put(n, 8)
  }

  // Two's complement.
  function I64(v: int): (b: Bytes)
    ensures |b| == 8
  {
    Put(v % Size(), 8)
  }

  // Length-prefixed bytes.
  function Chunk(s: Bytes): Bytes {
    U64(|s|) + s
  }

  function ConcatMap<T>(xs: seq<T>, enc: T -> Bytes): Bytes {
    if xs == [] then [] else ConcatMap(xs[..|xs| - 1], enc) + enc(xs[|xs| - 1])
  }

  lemma ConcatMapPush<T>(xs: seq<T>, enc: T -> Bytes, x: T)
    ensures ConcatMap(xs + [x], enc) == ConcatMap(xs, enc) + enc(x)
  {
    assert (xs + [x])[..|xs|] == xs;
  }

  lemma ConcatMapNext<T>(xs: seq<T>, i: nat, enc: T -> Bytes)
    requires i < |xs|
    ensures ConcatMap(xs[..i + 1], enc) == ConcatMap(xs[..i], enc) + enc(xs[i])
  {
    assert xs[..i + 1] == xs[..i] + [xs[i]];
    ConcatMapPush(xs[..i], enc, xs[i]);
  }

  lemma Associative(a: Bytes, b: Bytes, c: Bytes)
    ensures a + b + c == a + (b + c)
  {
  }

  lemma {:induction false} ConcatMapSplit<T>(xs: seq<T>, ys: seq<T>, enc: T -> Bytes)
    ensures ConcatMap(xs + ys, enc) == ConcatMap(xs, enc) + ConcatMap(ys, enc)
  {
    if ys == [] {
      assert xs + ys == xs;
    } else {
      var n := |ys| - 1;
      ConcatMapSplit(xs, ys[..n], enc);
      assert (xs + ys)[..|xs| + n] == xs + ys[..n];
    }
  }

  // A count and that many entries.
  function ListBlob<T>(xs: seq<T>, enc: T -> Bytes): Bytes {
    U64(|xs|) + ConcatMap(xs, enc)
  }

  // ---- reading; None is the reader's "truncated" exception ----

  function ReadU64(b: Bytes, p: nat): (r: Option<(nat, nat)>)
    ensures r.Some? ==> r.value.1 == p + 8 <= |b|
  {
    if p + 8 > |b| then None else Some((Get(b[p..p + 8]), p + 8))
  }

  function ReadI64(b: Bytes, p: nat): (r: Option<(int, nat)>)
    ensures r.Some? ==> r.value.1 == p + 8 <= |b|
  {
    match ReadU64(b, p)
    case None => None
    case Some((n, q)) => Some((if n >= Size() / 2 then n - Size() else n, q))
  }

  function ReadChunk(b: Bytes, p: nat): (r: Option<(Bytes, nat)>)
    ensures r.Some? ==> p < r.value.1 <= |b|
  {
    match ReadU64(b, p)
    case None => None
    case Some((n, q)) => if q + n > |b| then None else Some((b[q..q + n], q + n))
  }

  type Reader<T> = (Bytes, nat) -> Option<(T, nat)>

  function ReadN<T>(b: Bytes, p: nat, n: nat, rd: Reader<T>): Option<(seq<T>, nat)>
    decreases n
  {
    if n == 0 then Some(([], p))
    else
      match ReadN(b, p, n - 1, rd)
      case None => None
      case Some((xs, q)) =>
        match rd(b, q)
        case None => None
        case Some((x, end)) => Some((xs + [x], end))
  }

  function ReadList<T>(b: Bytes, p: nat, rd: Reader<T>): Option<(seq<T>, nat)> {
    match ReadU64(b, p)
    case None => None
    case Some((n, q)) => ReadN(b, q, n, rd)
  }

  // ---- what was written is read back ----

  lemma U64Back(b: Bytes, p: nat, n: nat)
    requires n < Size() && StartsAt(b, p, U64(n))
    ensures ReadU64(b, p) == Some((n, p + 8))
  {
    Fits(n, 8);
  }

  lemma Wraps(v: int, n: nat)
    requires n > 0 && -1 * n <= v < n
    ensures v % n == if v < 0 then (v + n) % n else v
    ensures v < 0 ==> v % n == v + n
  {
  }

  lemma I64Back(b: Bytes, p: nat, v: int)
    requires Int64(v) && StartsAt(b, p, I64(v))
    ensures ReadI64(b, p) == Some((v, p + 8))
  {
    Wraps(v, Size());
    Fits(v % Size(), 8);
  }

  lemma ChunkBack(b: Bytes, p: nat, s: Bytes)
    requires |s| < Size() && StartsAt(b, p, Chunk(s))
    ensures ReadChunk(b, p) == Some((s, p + |Chunk(s)|))
  {
    StartsSplit(b, p, U64(|s|), s);
    U64Back(b, p, |s|);
  }

  // The reader gives x back from wherever its bytes stand.
  ghost predicate ReadsBack<T(!new)>(rd: Reader<T>, bytes: Bytes, x: T) {
    forall b: Bytes, p: nat {:trigger StartsAt(b, p, bytes)} :: StartsAt(b, p, bytes) ==> rd(b, p) == Some((x, p + |bytes|))
  }

  ghost predicate AllReadBack<T(!new)>(rd: Reader<T>, enc: T -> Bytes, xs: seq<T>) {
    forall i {:trigger xs[i]} :: 0 <= i < |xs| ==> ReadsBack(rd, enc(xs[i]), xs[i])
  }

  lemma {:induction false} ReadNBack<T(!new)>(b: Bytes, p: nat, xs: seq<T>, enc: T -> Bytes, rd: Reader<T>)
    requires AllReadBack(rd, enc, xs) && StartsAt(b, p, ConcatMap(xs, enc))
    ensures ReadN(b, p, |xs|, rd) == Some((xs, p + |ConcatMap(xs, enc)|))
    decreases |xs|
  {
    if xs != [] {
      var n := |xs| - 1;
      StartsSplit(b, p, ConcatMap(xs[..n], enc), enc(xs[n]));
      forall i | 0 <= i < n ensures ReadsBack(rd, enc(xs[..n][i]), xs[..n][i]) {
        assert xs[..n][i] == xs[i];
      }
      ReadNBack(b, p, xs[..n], enc, rd);
      assert ReadsBack(rd, enc(xs[n]), xs[n]);
      assert xs == xs[..n] + [xs[n]];
    }
  }

  lemma ListBack<T(!new)>(b: Bytes, p: nat, xs: seq<T>, enc: T -> Bytes, rd: Reader<T>)
    requires |xs| < Size() && AllReadBack(rd, enc, xs) && StartsAt(b, p, ListBlob(xs, enc))
    ensures ReadList(b, p, rd) == Some((xs, p + |ListBlob(xs, enc)|))
  {
    StartsSplit(b, p, U64(|xs|), ConcatMap(xs, enc));
    U64Back(b, p, |xs|);
    ReadNBack(b, p + 8, xs, enc, rd);
  }

  // A reader that stops at the first entry it cannot read stays stopped.
  lemma {:induction false} ReadNFails<T>(b: Bytes, p: nat, i: nat, n: nat, rd: Reader<T>)
    requires i <= n && ReadN(b, p, i, rd).None?
    ensures ReadN(b, p, n, rd).None?
    decreases n
  {
    if i < n {
      ReadNFails(b, p, i, n - 1, rd);
    }
  }

  // ---- two values in a row ----

  function ReadPair<A, B>(b: Bytes, p: nat, ra: Reader<A>, rb: Reader<B>): Option<((A, B), nat)> {
    match ra(b, p)
    case None => None
    case Some((x, q)) =>
      match rb(b, q)
      case None => None
      case Some((y, end)) => Some(((x, y), end))
  }

  // ---- readers that give back what the writers wrote ----

  lemma U64ReadsBack(n: nat)
    requires n < Size()
    ensures ReadsBack(ReadU64, U64(n), n)
  {
    forall b: Bytes, p: nat {:trigger StartsAt(b, p, U64(n))} | StartsAt(b, p, U64(n)) ensures ReadU64(b, p) == Some((n, p + 8)) {
      U64Back(b, p, n);
    }
  }

  lemma I64ReadsBack(v: int)
    requires Int64(v)
    ensures ReadsBack(ReadI64, I64(v), v)
  {
    forall b: Bytes, p: nat {:trigger StartsAt(b, p, I64(v))} | StartsAt(b, p, I64(v)) ensures ReadI64(b, p) == Some((v, p + 8)) {
      I64Back(b, p, v);
    }
  }

  lemma ChunkReadsBack(s: Bytes)
    requires |s| < Size()
    ensures ReadsBack(ReadChunk, Chunk(s), s)
  {
    forall b: Bytes, p: nat {:trigger StartsAt(b, p, Chunk(s))} | StartsAt(b, p, Chunk(s))
      ensures ReadChunk(b, p) == Some((s, p + |Chunk(s)|))
    {
      ChunkBack(b, p, s);
    }
  }

  lemma PairReadsBack<A(!new), B(!new)>(rd: Reader<(A, B)>, ra: Reader<A>, rb: Reader<B>, bytesX: Bytes, bytesY: Bytes, x: A, y: B)
    requires ReadsBack(ra, bytesX, x) && ReadsBack(rb, bytesY, y)
    requires forall b: Bytes, p: nat {:trigger rd(b, p)} :: rd(b, p) == ReadPair(b, p, ra, rb)
    ensures ReadsBack(rd, bytesX + bytesY, (x, y))
  {
    forall b: Bytes, p: nat {:trigger StartsAt(b, p, bytesX + bytesY)} | StartsAt(b, p, bytesX + bytesY)
      ensures rd(b, p) == Some(((x, y), p + |bytesX + bytesY|))
    {
      StartsSplit(b, p, bytesX, bytesY);
    }
  }

  lemma ListReadsBack<T(!new)>(rd: Reader<seq<T>>, one: Reader<T>, enc: T -> Bytes, xs: seq<T>)
    requires |xs| < Size() && AllReadBack(one, enc, xs)
    requires forall b: Bytes, p: nat {:trigger rd(b, p)} :: rd(b, p) == ReadList(b, p, one)
    ensures ReadsBack(rd, ListBlob(xs, enc), xs)
  {
    forall b: Bytes, p: nat {:trigger StartsAt(b, p, ListBlob(xs, enc))} | StartsAt(b, p, ListBlob(xs, enc))
      ensures rd(b, p) == Some((xs, p + |ListBlob(xs, enc)|))
    {
      ListBack(b, p, xs, enc, one);
    }
  }

  // ---- a longer blob reads the same ----

  ghost predicate Monotone<T(!new)>(rd: Reader<T>) {
    forall b: Bytes, b': Bytes, p: nat {:trigger rd(b, p), rd(b', p)} ::
      b <= b' && rd(b, p).Some? ==> rd(b', p) == rd(b, p)
  }

  lemma U64Monotone()
    ensures Monotone(ReadU64)
  {
    forall b: Bytes, b': Bytes, p: nat | b <= b' && ReadU64(b, p).Some? ensures ReadU64(b', p) == ReadU64(b, p) {
      assert b'[p..p + 8] == b[p..p + 8];
    }
  }

  lemma I64Monotone()
    ensures Monotone(ReadI64)
  {
    U64Monotone();
    forall b: Bytes, b': Bytes, p: nat | b <= b' && ReadI64(b, p).Some? ensures ReadI64(b', p) == ReadI64(b, p) {
      assert ReadU64(b', p) == ReadU64(b, p);
    }
  }

  lemma ChunkMonotone()
    ensures Monotone(ReadChunk)
  {
    U64Monotone();
    forall b: Bytes, b': Bytes, p: nat | b <= b' && ReadChunk(b, p).Some? ensures ReadChunk(b', p) == ReadChunk(b, p) {
      assert ReadU64(b', p) == ReadU64(b, p);
      var n := ReadU64(b, p).value.0;
      assert b'[p + 8..p + 8 + n] == b[p + 8..p + 8 + n];
    }
  }

  lemma PairMonotone<A(!new), B(!new)>(rd: Reader<(A, B)>, ra: Reader<A>, rb: Reader<B>)
    requires Monotone(ra) && Monotone(rb)
    requires forall b: Bytes, p: nat {:trigger rd(b, p)} :: rd(b, p) == ReadPair(b, p, ra, rb)
    ensures Monotone(rd)
  {
    forall b: Bytes, b': Bytes, p: nat {:trigger rd(b, p), rd(b', p)} | b <= b' && rd(b, p).Some? ensures rd(b', p) == rd(b, p) {
      assert ra(b', p) == ra(b, p);
      var q := ra(b, p).value.1;
      assert rb(b', q) == rb(b, q);
    }
  }

  lemma {:induction false} ReadNMonotone<T(!new)>(b: Bytes, b': Bytes, p: nat, n: nat, rd: Reader<T>)
    requires b <= b' && Monotone(rd) && ReadN(b, p, n, rd).Some?
    ensures ReadN(b', p, n, rd) == ReadN(b, p, n, rd)
    decreases n
  {
    if n > 0 {
      ReadNMonotone(b, b', p, n - 1, rd);
    }
  }

  lemma ListMonotone<T(!new)>(rd: Reader<seq<T>>, one: Reader<T>)
    requires Monotone(one)
    requires forall b: Bytes, p: nat {:trigger rd(b, p)} :: rd(b, p) == ReadList(b, p, one)
    ensures Monotone(rd)
  {
    U64Monotone();
    forall b: Bytes, b': Bytes, p: nat {:trigger rd(b, p), rd(b', p)} | b <= b' && rd(b, p).Some? ensures rd(b', p) == rd(b, p) {
      assert ReadU64(b', p) == ReadU64(b, p);
      ReadNMonotone(b, b', p + 8, ReadU64(b, p).value.0, one);
    }
  }

  // ---- the writer and reader objects ----

  class BlobWriter {
    var bytes: Bytes

    constructor ()
      ensures bytes == []
    {
      bytes := [];
    }

    method PutU64(n: nat)
      modifies this
      ensures bytes == old(bytes) + U64(n)
    {
      bytes := bytes + U64(n);
    }

    method PutI64(v: int)
      modifies this
      ensures bytes == old(bytes) + I64(v)
    {
      bytes := bytes + I64(v);
    }

    method PutBytes(s: Bytes)
      modifies this
      ensures bytes == old(bytes) + Chunk(s)
    {
      PutU64(|s|);
      bytes := bytes + s;
    }
  }

  // What reading at p gives: the value and the position after it.
  ghost predicate Took<T>(rd: Reader<T>, data: Bytes, p: nat, r: Option<T>, q: nat) {
    rd(data, p) == if r.Some? then Some((r.value, q)) else None
  }

  lemma ReadNNext<T>(b: Bytes, p: nat, i: nat, n: nat, rd: Reader<T>, xs: seq<T>, at: nat, x: Option<T>, q: nat)
    requires i < n && ReadN(b, p, i, rd) == Some((xs, at)) && Took(rd, b, at, x, q)
    ensures x.None? ==> ReadN(b, p, n, rd).None?
    ensures x.Some? ==> ReadN(b, p, i + 1, rd) == Some((xs + [x.value], q))
  {
    if x.None? {
      ReadNFails(b, p, i + 1, n, rd);
    }
  }

  class BlobReader {
    const data: Bytes
    var pos: nat

    constructor (data: Bytes)
      ensures this.data == data && pos == 0
    {
      this.data, pos := data, 0;
    }

    method TakeU64() returns (r: Option<nat>)
      modifies this
      ensures Took(ReadU64, data, old(pos), r, pos)
    {
      if pos + 8 > |data| {
        return None;
      }
      r := Some(Get(data[pos..pos + 8]));
      pos := pos + 8;
    }

    method TakeI64() returns (r: Option<int>)
      modifies this
      ensures Took(ReadI64, data, old(pos), r, pos)
    {
      var n := TakeU64();
      if n.None? {
        return None;
      }
      r := Some(if n.value >= Size() / 2 then n.value - Size() else n.value);
    }

    method TakeBytes() returns (r: Option<Bytes>)
      modifies this
      ensures Took(ReadChunk, data, old(pos), r, pos)
    {
      var n := TakeU64();
      if n.None? || pos + n.value > |data| {
        return None;
      }
      r := Some(data[pos..pos + n.value]);
      pos := pos + n.value;
    }

    method Done() returns (done: bool)
      ensures done <==> pos == |data|
    {
      done := pos == |data|;
    }
  }
}

// Weighted rows and indexes as blobs.
module BlobMaps {
  import opened Rows
  import opened Buckets
  import opened LittleEndian
  import opened ByteStrings
  import opened BlobFormat

  // A container listed in its iteration order.
  type Entries = seq<(Bytes, int)>

  predicate EntryFits(e: (Bytes, int)) {
    |e.0| < Size() && Int64(e.1)
  }

  predicate EntriesFit(es: Entries) {
    |es| < Size() && forall i :: 0 <= i < |es| ==> EntryFits(es[i])
  }

  function EntryBytes(e: (Bytes, int)): Bytes {
    Chunk(e.0) + I64(e.1)
  }

  function WeightsBlob(es: Entries): Bytes {
    ListBlob(es, EntryBytes)
  }

  function ReadEntry(b: Bytes, p: nat): Option<((Bytes, int), nat)> {
    ReadPair(b, p, ReadChunk, ReadI64)
  }

  function ReadWeights(b: Bytes, p: nat): Option<(Entries, nat)> {
    ReadList(b, p, ReadEntry)
  }

  lemma EntryReadsBack(e: (Bytes, int))
    requires EntryFits(e)
    ensures ReadsBack(ReadEntry, EntryBytes(e), e)
  {
    ChunkReadsBack(e.0);
    I64ReadsBack(e.1);
    PairReadsBack(ReadEntry, ReadChunk, ReadI64, Chunk(e.0), I64(e.1), e.0, e.1);
  }

  lemma WeightsReadBack(es: Entries)
    requires EntriesFit(es)
    ensures ReadsBack(ReadWeights, WeightsBlob(es), es)
  {
    forall i | 0 <= i < |es| ensures ReadsBack(ReadEntry, EntryBytes(es[i]), es[i]) {
      EntryReadsBack(es[i]);
    }
    ListReadsBack(ReadWeights, ReadEntry, EntryBytes, es);
  }

  method TakeEntry(r: BlobReader) returns (e: Option<(Bytes, int)>)
    modifies r
    ensures Took(ReadEntry, r.data, old(r.pos), e, r.pos)
  {
    var bytes := r.TakeBytes();
    if bytes.None? {
      return None;
    }
    var w := r.TakeI64();
    if w.None? {
      return None;
    }
    e := Some((bytes.value, w.value));
  }

  // ---- indexes ----

  type Groups = seq<(Bytes, Entries)>

  predicate BucketFits(e: (Bytes, Entries)) {
    |e.0| < Size() && EntriesFit(e.1)
  }

  predicate BucketsFit(bs: Groups) {
    |bs| < Size() && forall i :: 0 <= i < |bs| ==> BucketFits(bs[i])
  }

  function BucketBytes(e: (Bytes, Entries)): Bytes {
    Chunk(e.0) + WeightsBlob(e.1)
  }

  function IndexBlob(bs: Groups): Bytes {
    ListBlob(bs, BucketBytes)
  }

  function ReadBucket(b: Bytes, p: nat): Option<((Bytes, Entries), nat)> {
    ReadPair(b, p, ReadChunk, ReadWeights)
  }

  function ReadIndex(b: Bytes, p: nat): Option<(Groups, nat)> {
    ReadList(b, p, ReadBucket)
  }

  lemma BucketReadsBack(e: (Bytes, Entries))
    requires BucketFits(e)
    ensures ReadsBack(ReadBucket, BucketBytes(e), e)
  {
    ChunkReadsBack(e.0);
    WeightsReadBack(e.1);
    PairReadsBack(ReadBucket, ReadChunk, ReadWeights, Chunk(e.0), WeightsBlob(e.1), e.0, e.1);
  }

  lemma IndexReadsBack(bs: Groups)
    requires BucketsFit(bs)
    ensures ReadsBack(ReadIndex, IndexBlob(bs), bs)
  {
    forall i | 0 <= i < |bs| ensures ReadsBack(ReadBucket, BucketBytes(bs[i]), bs[i]) {
      BucketReadsBack(bs[i]);
    }
    ListReadsBack(ReadIndex, ReadBucket, BucketBytes, bs);
  }

  // ---- longer blobs ----

  lemma WeightsMonotone()
    ensures Monotone(ReadWeights)
  {
    ChunkMonotone();
    I64Monotone();
    PairMonotone(ReadEntry, ReadChunk, ReadI64);
    ListMonotone(ReadWeights, ReadEntry);
  }

  lemma IndexMonotone()
    ensures Monotone(ReadIndex)
  {
    ChunkMonotone();
    WeightsMonotone();
    PairMonotone(ReadBucket, ReadChunk, ReadWeights);
    ListMonotone(ReadIndex, ReadBucket);
  }
}

// The boxed state of a join node through its blob.
module JoinBlobs {
  import opened ZSets
  import opened Rows
  import opened Buckets
  import opened ByteStrings
  import opened BlobFormat
  import opened BlobMaps
  import JoinStorage

  // Row bytes, as the row serializer of the spill store produces them.
  datatype RowCodec = RowCodec(ser: Row -> Bytes, deser: Bytes -> Row)

  // What is assumed of it: rows come back as they were.
  ghost predicate Faithful(cd: RowCodec) {
    forall r {:trigger cd.ser(r)} :: |cd.ser(r)| < Size() ==> cd.deser(cd.ser(r)) == r
  }

  ghost predicate RowFits(cd: RowCodec, r: Row) {
    |cd.ser(r)| < Size()
  }

  // Within the machine's widths.
  ghost predicate WeightsFit(cd: RowCodec, z: ZSet<Row>) {
    |z| < Size() && forall r {:trigger RowFits(cd, r)} {:trigger z[r]} :: r in z ==> RowFits(cd, r) && Int64(z[r])
  }

  ghost predicate IndexFits(cd: RowCodec, index: JoinStorage.Index) {
    |index| < Size() && forall k {:trigger RowFits(cd, k)} {:trigger index[k]} :: k in index ==> RowFits(cd, k) && WeightsFit(cd, index[k])
  }

  // Entries read one by one into a map; a repeated row keeps its first weight.
  function FromEntries(cd: RowCodec, es: Entries): ZSet<Row> {
    if es == [] then map[]
    else
      var m := FromEntries(cd, es[..|es| - 1]);
      var (bytes, w) := es[|es| - 1];
      if cd.deser(bytes) in m then m else m[cd.deser(bytes) := w]
  }

  function FromGroups(cd: RowCodec, gs: Groups): JoinStorage.Index {
    if gs == [] then map[]
    else
      var m := FromGroups(cd, gs[..|gs| - 1]);
      var (bytes, es) := gs[|gs| - 1];
      if cd.deser(bytes) in m then m else m[cd.deser(bytes) := FromEntries(cd, es)]
  }

  lemma FromEntriesPush(cd: RowCodec, es: Entries, e: (Bytes, int))
    ensures FromEntries(cd, es + [e])
         == var m := FromEntries(cd, es); if cd.deser(e.0) in m then m else m[cd.deser(e.0) := e.1]
  {
    assert (es + [e])[..|es|] == es;
  }

  lemma FromGroupsPush(cd: RowCodec, gs: Groups, g: (Bytes, Entries))
    ensures FromGroups(cd, gs + [g])
         == var m := FromGroups(cd, gs); if cd.deser(g.0) in m then m else m[cd.deser(g.0) := FromEntries(cd, g.1)]
  {
    assert (gs + [g])[..|gs|] == gs;
  }

  // The entries list z: as many as it has rows, and reading them gives z.
  ghost predicate Lists(cd: RowCodec, z: ZSet<Row>, es: Entries) {
    EntriesFit(es) && |es| == |z| && FromEntries(cd, es) == z
  }

  ghost predicate ListsIndex(cd: RowCodec, index: JoinStorage.Index, gs: Groups) {
    BucketsFit(gs) && |gs| == |index| && FromGroups(cd, gs) == index
  }

  method WriteEntry(w: BlobWriter, cd: RowCodec, row: Row, weight: int)
    modifies w
    ensures w.bytes == old(w.bytes) + EntryBytes((cd.ser(row), weight))
  {
    w.PutBytes(cd.ser(row));
    w.PutI64(weight);
  }

  // Everything but `todo` has been written, after `start`.
  ghost predicate Writing(cd: RowCodec, z: ZSet<Row>, todo: set<Row>, es: Entries, start: Bytes, bytes: Bytes) {
    && todo <= z.Keys && |es| + |todo| == |z|
    && FromEntries(cd, es) == z - todo && (forall i :: 0 <= i < |es| ==> EntryFits(es[i]))
    && bytes == start + (U64(|z|) + ConcatMap(es, EntryBytes))
  }

  lemma WritingStep(cd: RowCodec, z: ZSet<Row>, todo: set<Row>, es: Entries, start: Bytes, bytes: Bytes, row: Row)
    requires Faithful(cd) && WeightsFit(cd, z) && Writing(cd, z, todo, es, start, bytes) && row in todo
    ensures RowFits(cd, row) && Int64(z[row])
    ensures Writing(cd, z, todo - {row}, es + [(cd.ser(row), z[row])], start, bytes + EntryBytes((cd.ser(row), z[row])))
  {
    var e := (cd.ser(row), z[row]);
    assert RowFits(cd, row);
    ConcatMapPush(es, EntryBytes, e);
    FromEntriesPush(cd, es, e);
    assert cd.deser(e.0) == row;
    assert (z - todo)[row := z[row]] == z - (todo - {row});
    assert bytes + EntryBytes(e) == start + (U64(|z|) + (ConcatMap(es, EntryBytes) + EntryBytes(e)));
  }

  method WriteWeights(w: BlobWriter, cd: RowCodec, z: ZSet<Row>) returns (ghost es: Entries)
    requires Faithful(cd) && WeightsFit(cd, z)
    modifies w
    ensures Lists(cd, z, es) && w.bytes == old(w.bytes) + WeightsBlob(es)
  {
    ghost var start := w.bytes;
    w.PutU64(|z|);
    es := [];
    var todo := z.Keys;
    assert z - todo == map[];
    while todo != {}
      invariant Writing(cd, z, todo, es, start, w.bytes)
      decreases todo
    {
      var row :| row in todo;
      WritingStep(cd, z, todo, es, start, w.bytes, row);
      WriteEntry(w, cd, row, z[row]);
      es := es + [(cd.ser(row), z[row])];
      todo := todo - {row};
    }
    assert z - {} == z;
  }

  ghost predicate WritingIndex(cd: RowCodec, index: JoinStorage.Index, todo: set<Row>, gs: Groups, start: Bytes, bytes: Bytes) {
    && todo <= index.Keys && |gs| + |todo| == |index|
    && FromGroups(cd, gs) == index - todo && (forall i :: 0 <= i < |gs| ==> BucketFits(gs[i]))
    && bytes == start + (U64(|index|) + ConcatMap(gs, BucketBytes))
  }

  lemma GroupBytesStep(index: JoinStorage.Index, gs: Groups, start: Bytes, bytes: Bytes, g: (Bytes, Entries))
    requires bytes == start + (U64(|index|) + ConcatMap(gs, BucketBytes))
    ensures bytes + BucketBytes(g) == start + (U64(|index|) + ConcatMap(gs + [g], BucketBytes))
  {
    ConcatMapPush(gs, BucketBytes, g);
    assert bytes + BucketBytes(g) == start + (U64(|index|) + (ConcatMap(gs, BucketBytes) + BucketBytes(g)));
  }

  lemma GroupMapStep(cd: RowCodec, index: JoinStorage.Index, todo: set<Row>, gs: Groups, key: Row, g: (Bytes, Entries))
    requires FromGroups(cd, gs) == index - todo && key in todo && todo <= index.Keys
    requires cd.deser(g.0) == key && FromEntries(cd, g.1) == index[key]
    ensures FromGroups(cd, gs + [g]) == index - (todo - {key})
  {
    FromGroupsPush(cd, gs, g);
    assert (index - todo)[key := index[key]] == index - (todo - {key});
  }

  lemma GroupFitsStep(cd: RowCodec, gs: Groups, key: Row, bucket: ZSet<Row>, es: Entries)
    requires (forall i :: 0 <= i < |gs| ==> BucketFits(gs[i])) && RowFits(cd, key) && Lists(cd, bucket, es)
    ensures var gs' := gs + [(cd.ser(key), es)]; forall i :: 0 <= i < |gs'| ==> BucketFits(gs'[i])
  {
  }

  lemma WritingIndexStep(cd: RowCodec, index: JoinStorage.Index, todo: set<Row>, gs: Groups, start: Bytes, bytes: Bytes,
                         key: Row, es: Entries)
    requires Faithful(cd) && WritingIndex(cd, index, todo, gs, start, bytes) && key in todo
    requires RowFits(cd, key) && Lists(cd, index[key], es)
    ensures WritingIndex(cd, index, todo - {key}, gs + [(cd.ser(key), es)], start, bytes + BucketBytes((cd.ser(key), es)))
  {
    assert cd.deser(cd.ser(key)) == key;
    GroupBytesStep(index, gs, start, bytes, (cd.ser(key), es));
    GroupMapStep(cd, index, todo, gs, key, (cd.ser(key), es));
    GroupFitsStep(cd, gs, key, index[key], es);
  }

  method WriteBucket(w: BlobWriter, cd: RowCodec, key: Row, bucket: ZSet<Row>) returns (ghost es: Entries)
    requires Faithful(cd) && RowFits(cd, key) && WeightsFit(cd, bucket)
    modifies w
    ensures Lists(cd, bucket, es) && w.bytes == old(w.bytes) + BucketBytes((cd.ser(key), es))
  {
    w.PutBytes(cd.ser(key));
    es := WriteWeights(w, cd, bucket);
  }

  lemma IndexWritten(cd: RowCodec, index: JoinStorage.Index, gs: Groups, start: Bytes, bytes: Bytes)
    requires IndexFits(cd, index) && WritingIndex(cd, index, {}, gs, start, bytes)
    ensures ListsIndex(cd, index, gs) && bytes == start + IndexBlob(gs)
  {
    assert index - {} == index;
  }

  method WriteNext(w: BlobWriter, cd: RowCodec, index: JoinStorage.Index, ghost todo: set<Row>, ghost gs0: Groups, ghost start: Bytes,
                   key: Row)
    returns (ghost gs: Groups)
    requires Faithful(cd) && IndexFits(cd, index) && WritingIndex(cd, index, todo, gs0, start, w.bytes) && key in todo
    modifies w
    ensures WritingIndex(cd, index, todo - {key}, gs, start, w.bytes)
  {
    assert RowFits(cd, key) && WeightsFit(cd, index[key]);
    ghost var before := w.bytes;
    ghost var es := WriteBucket(w, cd, key, index[key]);
    WritingIndexStep(cd, index, todo, gs0, start, before, key, es);
    gs := gs0 + [(cd.ser(key), es)];
  }

  method WriteIndex(w: BlobWriter, cd: RowCodec, index: JoinStorage.Index) returns (ghost gs: Groups)
    requires Faithful(cd) && IndexFits(cd, index)
    modifies w
    ensures ListsIndex(cd, index, gs) && w.bytes == old(w.bytes) + IndexBlob(gs)
  {
    ghost var start := w.bytes;
    w.PutU64(|index|);
    gs := [];
    var todo := index.Keys;
    assert index - todo == map[];
    while todo != {}
      invariant WritingIndex(cd, index, todo, gs, start, w.bytes)
      decreases todo
    {
      var key :| key in todo;
      gs := WriteNext(w, cd, index, todo, gs, start, key);
      todo := todo - {key};
    }
    IndexWritten(cd, index, gs, start, w.bytes);
  }

  // ---- restoring ----

  method RestoreWeights(r: BlobReader, cd: RowCodec) returns (z: Option<ZSet<Row>>, ghost es: Entries)
    modifies r
    ensures Took(ReadWeights, r.data, old(r.pos), if z.Some? then Some(es) else None, r.pos)
    ensures z.Some? ==> z.value == FromEntries(cd, es)
  {
    es := [];
    ghost var start := r.pos;
    var n := r.TakeU64();
    if n.None? {
      return None, [];
    }
    var m: ZSet<Row> := map[];
    for i := 0 to n.value
      invariant ReadN(r.data, start + 8, i, ReadEntry) == Some((es, r.pos))
      invariant m == FromEntries(cd, es)
    {
      ghost var at := r.pos;
      var e := TakeEntry(r);
      ReadNNext(r.data, start + 8, i, n.value, ReadEntry, es, at, e, r.pos);
      if e.None? {
        return None, [];
      }
      FromEntriesPush(cd, es, e.value);
      es := es + [e.value];
      var row := cd.deser(e.value.0);
      m := if row in m then m else m[row := e.value.1];
    }
    z := Some(m);
  }

  method RestoreBucket(r: BlobReader, cd: RowCodec) returns (key: Row, bucket: Option<ZSet<Row>>, ghost g: (Bytes, Entries))
    modifies r
    ensures Took(ReadBucket, r.data, old(r.pos), if bucket.Some? then Some(g) else None, r.pos)
    ensures bucket.Some? ==> key == cd.deser(g.0) && bucket.value == FromEntries(cd, g.1)
  {
    key, bucket, g := [], None, ([], []);
    var bytes := r.TakeBytes();
    if bytes.Some? {
      ghost var es;
      key := cd.deser(bytes.value);
      bucket, es := RestoreWeights(r, cd);
      g := (bytes.value, es);
    }
  }

  method RestoreIndex(r: BlobReader, cd: RowCodec) returns (index: Option<JoinStorage.Index>, ghost gs: Groups)
    modifies r
    ensures Took(ReadIndex, r.data, old(r.pos), if index.Some? then Some(gs) else None, r.pos)
    ensures index.Some? ==> index.value == FromGroups(cd, gs)
  {
    gs := [];
    ghost var start := r.pos;
    var n := r.TakeU64();
    if n.None? {
      return None, [];
    }
    var m: JoinStorage.Index := map[];
    for i := 0 to n.value
      invariant ReadN(r.data, start + 8, i, ReadBucket) == Some((gs, r.pos))
      invariant m == FromGroups(cd, gs)
    {
      ghost var at := r.pos;
      var key, bucket, g := RestoreBucket(r, cd);
      ReadNNext(r.data, start + 8, i, n.value, ReadBucket, gs, at, if bucket.Some? then Some(g) else None, r.pos);
      if bucket.None? {
        return None, [];
      }
      FromGroupsPush(cd, gs, g);
      gs := gs + [g];
      m := if key in m then m else m[key := bucket.value];
    }
    index := Some(m);
  }
}

// A join node saved and restored.
module JoinCheckpoint {
  import opened ZSets
  import opened Rows
  import opened Buckets
  import opened ByteStrings
  import opened BlobFormat
  import opened BlobMaps
  import opened JoinBlobs
  import opened JoinSemantics
  import opened JoinStorage
  import opened JoinSides
  import opened JoinStep
  import opened JoinNode

  // Joins whose state a checkpoint carries; the others are replayed.
  predicate Serializable(c: Config) {
    c.joinType.Inner? || c.joinType.Left? || c.joinType.Right?
  }

  // Both indexes, both sides' row totals, both sides' emitted pads.
  type Parts = ((Groups, Groups), ((Entries, Entries), (Entries, Entries)))

  function PartsBlob(ps: Parts): Bytes {
    (IndexBlob(ps.0.0) + IndexBlob(ps.0.1))
    + ((WeightsBlob(ps.1.0.0) + WeightsBlob(ps.1.0.1)) + (WeightsBlob(ps.1.1.0) + WeightsBlob(ps.1.1.1)))
  }

  function ReadIndexes(b: Bytes, p: nat): Option<((Groups, Groups), nat)> {
    ReadPair(b, p, ReadIndex, ReadIndex)
  }

  function ReadWeightPair(b: Bytes, p: nat): Option<((Entries, Entries), nat)> {
    ReadPair(b, p, ReadWeights, ReadWeights)
  }

  function ReadTotalsAndPads(b: Bytes, p: nat): Option<(((Entries, Entries), (Entries, Entries)), nat)> {
    ReadPair(b, p, ReadWeightPair, ReadWeightPair)
  }

  function ReadParts(b: Bytes, p: nat): Option<(Parts, nat)> {
    ReadPair(b, p, ReadIndexes, ReadTotalsAndPads)
  }

  // All parts are there and nothing follows them.
  predicate Accepted(b: Bytes) {
    ReadParts(b, 0).Some? && ReadParts(b, 0).value.1 == |b|
  }

  // ---- reading back ----

  predicate PartsFit(ps: Parts) {
    && BucketsFit(ps.0.0) && BucketsFit(ps.0.1)
    && EntriesFit(ps.1.0.0) && EntriesFit(ps.1.0.1) && EntriesFit(ps.1.1.0) && EntriesFit(ps.1.1.1)
  }

  lemma PartsBack(ps: Parts)
    requires PartsFit(ps)
    ensures ReadsBack(ReadParts, PartsBlob(ps), ps)
    ensures Accepted(PartsBlob(ps)) && ReadParts(PartsBlob(ps), 0).value.0 == ps
  {
    var ((li, ri), ((lw, rw), (lp, rp))) := ps;
    IndexReadsBack(li);
    IndexReadsBack(ri);
    WeightsReadBack(lw);
    WeightsReadBack(rw);
    WeightsReadBack(lp);
    WeightsReadBack(rp);
    PairReadsBack(ReadIndexes, ReadIndex, ReadIndex, IndexBlob(li), IndexBlob(ri), li, ri);
    PairReadsBack(ReadWeightPair, ReadWeights, ReadWeights, WeightsBlob(lw), WeightsBlob(rw), lw, rw);
    PairReadsBack(ReadWeightPair, ReadWeights, ReadWeights, WeightsBlob(lp), WeightsBlob(rp), lp, rp);
    var totals, pads := WeightsBlob(lw) + WeightsBlob(rw), WeightsBlob(lp) + WeightsBlob(rp);
    PairReadsBack(ReadTotalsAndPads, ReadWeightPair, ReadWeightPair, totals, pads, (lw, rw), (lp, rp));
    PairReadsBack(ReadParts, ReadIndexes, ReadTotalsAndPads, IndexBlob(li) + IndexBlob(ri), totals + pads,
                  (li, ri), ((lw, rw), (lp, rp)));
    assert StartsAt(PartsBlob(ps), 0, PartsBlob(ps));
  }

  // ---- an accepted blob cut short or continued is not accepted ----

  lemma NoOtherLength(b: Bytes, b': Bytes)
    requires Accepted(b) && Accepted(b') && b <= b'
    ensures b == b'
  {
    IndexMonotone();
    WeightsMonotone();
    PairMonotone(ReadIndexes, ReadIndex, ReadIndex);
    PairMonotone(ReadWeightPair, ReadWeights, ReadWeights);
    PairMonotone(ReadTotalsAndPads, ReadWeightPair, ReadWeightPair);
    PairMonotone(ReadParts, ReadIndexes, ReadTotalsAndPads);
    assert ReadParts(b', 0) == ReadParts(b, 0);
  }

  // ---- the node's state ----

  function IndexOf(side: Side): Index {
    side.view.store.index
  }

  function WithIndex(side: Side, index: Index): Side {
    side.(view := side.view.(store := side.view.store.(index := index)))
  }

  ghost predicate StateFits(cd: RowCodec, st: NodeState) {
    && IndexFits(cd, IndexOf(st.left)) && IndexFits(cd, IndexOf(st.right))
    && WeightsFit(cd, st.left.weights) && WeightsFit(cd, st.right.weights)
    && WeightsFit(cd, st.leftPad) && WeightsFit(cd, st.rightPad)
  }

  ghost predicate PartsList(cd: RowCodec, st: NodeState, ps: Parts) {
    && ListsIndex(cd, IndexOf(st.left), ps.0.0) && ListsIndex(cd, IndexOf(st.right), ps.0.1)
    && Lists(cd, st.left.weights, ps.1.0.0) && Lists(cd, st.right.weights, ps.1.0.1)
    && Lists(cd, st.leftPad, ps.1.1.0) && Lists(cd, st.rightPad, ps.1.1.1)
  }

  // Every count prefix is the number of entries that follow it, and reading
  // the blob ends at its last byte.
  method SerializeState(node: PlanJoinNode, cd: RowCodec) returns (blob: Bytes, ghost ps: Parts)
    requires Faithful(cd) && StateFits(cd, node.state)
    ensures PartsList(cd, node.state, ps) && blob == PartsBlob(ps)
    ensures Accepted(blob) && ReadParts(blob, 0).value.0 == ps
  {
    var w := new BlobWriter();
    var st := node.state;
    ghost var li := WriteIndex(w, cd, IndexOf(st.left));
    ghost var ri := WriteIndex(w, cd, IndexOf(st.right));
    ghost var lw := WriteWeights(w, cd, st.left.weights);
    ghost var rw := WriteWeights(w, cd, st.right.weights);
    ghost var lp := WriteWeights(w, cd, st.leftPad);
    ghost var rp := WriteWeights(w, cd, st.rightPad);
    blob, ps := w.bytes, ((li, ri), ((lw, rw), (lp, rp)));
    assert blob == PartsBlob(ps) by {
      Regroup(IndexBlob(li), IndexBlob(ri), WeightsBlob(lw), WeightsBlob(rw), WeightsBlob(lp), WeightsBlob(rp));
    }
    PartsBack(ps);
  }

  lemma Regroup(a: Bytes, b: Bytes, c: Bytes, d: Bytes, e: Bytes, f: Bytes)
    ensures [] + a + b + c + d + e + f == (a + b) + ((c + d) + (e + f))
  {
  }

  // The parts as state; what a checkpoint does not carry stays.
  function Restored(cd: RowCodec, st: NodeState, ps: Parts): NodeState {
    NodeState(WithIndex(st.left, FromGroups(cd, ps.0.0)).(weights := FromEntries(cd, ps.1.0.0)),
              WithIndex(st.right, FromGroups(cd, ps.0.1)).(weights := FromEntries(cd, ps.1.0.1)),
              FromEntries(cd, ps.1.1.0), FromEntries(cd, ps.1.1.1), st.marks)
  }

  method RestoreIndexes(r: BlobReader, cd: RowCodec) returns (x: Option<(Index, Index)>, ghost gs: (Groups, Groups))
    modifies r
    ensures Took(ReadIndexes, r.data, old(r.pos), if x.Some? then Some(gs) else None, r.pos)
    ensures x.Some? ==> x.value == (FromGroups(cd, gs.0), FromGroups(cd, gs.1))
  {
    gs := ([], []);
    var a, ga := RestoreIndex(r, cd);
    if a.None? {
      return None, gs;
    }
    var b, gb := RestoreIndex(r, cd);
    if b.None? {
      return None, gs;
    }
    x, gs := Some((a.value, b.value)), (ga, gb);
  }

  method RestoreWeightPair(r: BlobReader, cd: RowCodec) returns (x: Option<(ZSet<Row>, ZSet<Row>)>, ghost es: (Entries, Entries))
    modifies r
    ensures Took(ReadWeightPair, r.data, old(r.pos), if x.Some? then Some(es) else None, r.pos)
    ensures x.Some? ==> x.value == (FromEntries(cd, es.0), FromEntries(cd, es.1))
  {
    es := ([], []);
    var a, ea := RestoreWeights(r, cd);
    if a.None? {
      return None, es;
    }
    var b, eb := RestoreWeights(r, cd);
    if b.None? {
      return None, es;
    }
    x, es := Some((a.value, b.value)), (ea, eb);
  }

  method RestoreTotalsAndPads(node: PlanJoinNode, r: BlobReader, cd: RowCodec)
    returns (ok: bool, ghost es: ((Entries, Entries), (Entries, Entries)))
    modifies node`state, r
    ensures Took(ReadTotalsAndPads, r.data, old(r.pos), if ok then Some(es) else None, r.pos)
    ensures ok ==> var st := old(node.state);
                   node.state == NodeState(st.left.(weights := FromEntries(cd, es.0.0)),
                                           st.right.(weights := FromEntries(cd, es.0.1)),
                                           FromEntries(cd, es.1.0), FromEntries(cd, es.1.1), st.marks)
  {
    es := (([], []), ([], []));
    var totals, ts := RestoreWeightPair(r, cd);
    if totals.None? {
      return false, es;
    }
    node.state := node.state.(left := node.state.left.(weights := totals.value.0),
                              right := node.state.right.(weights := totals.value.1));
    var pads, ds := RestoreWeightPair(r, cd);
    if pads.None? {
      return false, es;
    }
    node.state := node.state.(leftPad := pads.value.0, rightPad := pads.value.1);
    ok, es := true, (ts, ds);
  }

  method RestoreState(node: PlanJoinNode, cd: RowCodec, blob: Bytes) returns (ok: bool)
    modifies node`state
    ensures ok <==> Accepted(blob)
    ensures ok ==> node.state == Restored(cd, old(node.state), ReadParts(blob, 0).value.0)
  {
    var r := new BlobReader(blob);
    var indexes, gs := RestoreIndexes(r, cd);
    if indexes.None? {
      return false;
    }
    node.state := node.state.(left := WithIndex(node.state.left, indexes.value.0),
                              right := WithIndex(node.state.right, indexes.value.1));
    var complete, es := RestoreTotalsAndPads(node, r, cd);
    if !complete {
      return false;
    }
    ok := r.Done();
  }

  // ---- transparency ----

  // A node of the same plan over the same arrangements, for instance a new one.
  ghost predicate Twins(node: PlanJoinNode, twin: PlanJoinNode)
    reads node, twin
  {
    && twin != node && twin.c == node.c && twin.shardsCfg == node.shardsCfg
    && twin.sharedLeft == node.sharedLeft && twin.sharedRight == node.sharedRight
  }

  // The same inputs so far, and the same emitted from them.
  ghost predicate SameInputs(node: PlanJoinNode, twin: PlanJoinNode)
    reads node, twin
  {
    twin.L == node.L && twin.R == node.R && twin.emitted == node.emitted && Same(twin.missing, node.missing)
  }

  // A restored side holds what the saved one did.
  lemma RestoredSide(c: Config, left: bool, weighted: bool, saved: Side, blank: Side, restored: Side, content: ZSet<Row>)
    requires LocalOk(c, left, saved) && LocalOk(c, left, blank) && !c.PackedOk()
    requires Represents(c.Keys(left), c.nullSafe, weighted, false, saved, content)
    requires restored == WithIndex(blank, IndexOf(saved)).(weights := saved.weights)
    ensures LocalOk(c, left, restored) && Represents(c.Keys(left), c.nullSafe, weighted, false, restored, content)
  {
    forall k, r ensures ReadsAt(c.Keys(left), c.nullSafe, restored.view, content, k, r) {
      assert ReadsAt(c.Keys(left), c.nullSafe, saved.view, content, k, r);
      assert Read(restored.view, k) == Read(saved.view, k);
    }
  }

  // A restored state belongs to the same integrated inputs: the counters and
  // marks a checkpoint drops are read by MARK joins only.
  lemma RestoredStateFor(cd: RowCodec, c: Config, sharedL: bool, sharedR: bool, st: NodeState, st0: NodeState,
                         ps: Parts, L: ZSet<Row>, R: ZSet<Row>)
    requires Serializable(c) && !c.PackedOk() && StateFor(c, sharedL, sharedR, st, L, R) && PartsList(cd, st, ps)
    requires LocalOk(c, true, st0.left) && LocalOk(c, false, st0.right)
    ensures StateFor(c, sharedL, sharedR, Restored(cd, st0, ps), L, R)
  {
    var st' := Restored(cd, st0, ps);
    if !sharedL {
      RestoredSide(c, true, c.PadsLeft(), st.left, st0.left, st'.left, L);
    }
    if !sharedR {
      RestoredSide(c, false, c.PadsRight(), st.right, st0.right, st'.right, R);
    }
  }

  // Give a node a state and the inputs it belongs to.
  method TakeOver(twin: PlanJoinNode, st: NodeState, ghost L: ZSet<Row>, ghost R: ZSet<Row>, ghost emitted: ZSet<Row>,
                  ghost missing: Row -> int)
    modifies twin`state, twin`L, twin`R, twin`emitted, twin`missing
    ensures twin.state == st && twin.L == L && twin.R == R && twin.emitted == emitted && twin.missing == missing
    ensures StateFor(twin.c, twin.sharedLeft.Share?, twin.sharedRight.Share?, st, L, R) && SumsWith(twin.c, emitted, missing, L, R)
            ==> twin.Valid()
  {
    twin.state := st;
    twin.L, twin.R, twin.emitted, twin.missing := L, R, emitted, missing;
  }

  // Restore a blob whose state belongs to given inputs.
  method Adopt(twin: PlanJoinNode, cd: RowCodec, blob: Bytes, ghost ps: Parts, ghost L: ZSet<Row>, ghost R: ZSet<Row>,
               ghost emitted: ZSet<Row>, ghost missing: Row -> int)
    requires Accepted(blob) && ReadParts(blob, 0).value.0 == ps
    requires StateFor(twin.c, twin.sharedLeft.Share?, twin.sharedRight.Share?, Restored(cd, twin.state, ps), L, R)
    requires SumsWith(twin.c, emitted, missing, L, R)
    modifies twin`state, twin`L, twin`R, twin`emitted, twin`missing
    ensures twin.Valid() && twin.L == L && twin.R == R && twin.emitted == emitted && twin.missing == missing
  {
    var ok := RestoreState(twin, cd, blob);
    TakeOver(twin, twin.state, L, R, emitted, missing);
  }

  lemma TwinState(node: PlanJoinNode, twin: PlanJoinNode, cd: RowCodec, ps: Parts)
    requires node.Valid() && twin.Valid() && Twins(node, twin)
    requires Serializable(node.c) && !node.c.PackedOk() && PartsList(cd, node.state, ps)
    ensures StateFor(twin.c, twin.sharedLeft.Share?, twin.sharedRight.Share?, Restored(cd, twin.state, ps), node.L, node.R)
    ensures SumsWith(twin.c, node.emitted, node.missing, node.L, node.R)
  {
    RestoredStateFor(cd, node.c, node.sharedLeft.Share?, node.sharedRight.Share?, node.state, twin.state, ps, node.L, node.R);
  }

  // Save a boxed `node` and restore the blob into `twin`.
  method SaveAndRestore(node: PlanJoinNode, twin: PlanJoinNode, cd: RowCodec)
    requires node.Valid() && twin.Valid() && Twins(node, twin)
    requires Serializable(node.c) && !node.c.PackedOk() && Faithful(cd) && StateFits(cd, node.state)
    modifies twin`state, twin`L, twin`R, twin`emitted, twin`missing
    ensures twin.Valid() && SameInputs(node, twin)
  {
    var blob, ps := SerializeState(node, cd);
    TwinState(node, twin, cd, ps);
    Adopt(twin, cd, blob, ps, node.L, node.R, node.emitted, node.missing);
  }

  // ---- later inputs ----

  // A delta is determined by the integrated inputs before and after, and by
  // what the step leaves out.
  lemma SameDelta(c: Config, a: ZSet<Row>, b: ZSet<Row>, lost: Row -> int, L: ZSet<Row>, R: ZSet<Row>, L': ZSet<Row>, R': ZSet<Row>)
    requires MovesWithout(c, a, lost, L, R, L', R') && MovesWithout(c, b, lost, L, R, L', R')
    ensures a == b
  {
    forall o ensures W(a, o) == W(b, o) {
      assert W(a, o) == SpecWeight(c, L', R', o) - SpecWeight(c, L, R, o) - lost(o);
      assert W(b, o) == SpecWeight(c, L', R', o) - SpecWeight(c, L, R, o) - lost(o);
    }
    Extensional(a, b);
  }

  lemma TwinSteppable(node: PlanJoinNode, twin: PlanJoinNode, dl: ZSet<Row>, dr: ZSet<Row>)
    requires Twins(node, twin) && node.L == twin.L && node.R == twin.R && node.Steppable(dl, dr)
    ensures twin.Steppable(dl, dr) && twin.Omits(dl, dr) == node.Omits(dl, dr)
  {
    assert twin.ContentOf(true) == node.ContentOf(true) && twin.ContentOf(false) == node.ContentOf(false);
  }

  // One later input: both nodes emit the same delta. The twin computes its
  // outcome before the node installs its own, which it cannot notice.
  method StepBoth(node: PlanJoinNode, twin: PlanJoinNode, dl: ZSet<Row>, dr: ZSet<Row>)
    requires node.Valid() && twin.Valid() && Twins(node, twin) && SameInputs(node, twin)
    requires node.Steppable(dl, dr)
    modifies node, twin
    ensures node.Valid() && twin.Valid() && Twins(node, twin) && node.output == twin.output
    ensures SameInputs(node, twin) && node.L == Plus(old(node.L), dl) && node.R == Plus(old(node.R), dr)
    ensures node.sharedLeft == old(node.sharedLeft) && node.sharedRight == old(node.sharedRight)
  {
    ghost var L, R, omits, missing := node.L, node.R, node.Omits(dl, dr), AddedTo(twin.missing, node.Omits(dl, dr));
    SameSums(node.missing, twin.missing, omits);
    var next, out := TwinAdvance(node, twin, dl, dr);
    node.Step(dl, dr);
    SameDelta(node.c, node.output, out, omits, L, R, node.L, node.R);
    twin.Install(next, out, node.L, node.R, node.emitted, missing);
  }

  method TwinAdvance(node: PlanJoinNode, twin: PlanJoinNode, dl: ZSet<Row>, dr: ZSet<Row>) returns (next: NodeState, out: ZSet<Row>)
    requires twin.Valid() && Twins(node, twin) && SameInputs(node, twin) && node.Steppable(dl, dr)
    ensures StateFor(node.c, node.sharedLeft.Share?, node.sharedRight.Share?, next, Plus(node.L, dl), Plus(node.R, dr))
    ensures MovesWithout(node.c, out, node.Omits(dl, dr), node.L, node.R, Plus(node.L, dl), Plus(node.R, dr))
    ensures SumsWith(node.c, Plus(node.emitted, out), AddedTo(twin.missing, node.Omits(dl, dr)), Plus(node.L, dl), Plus(node.R, dr))
  {
    TwinSteppable(node, twin, dl, dr);
    next, out := twin.Advance(dl, dr);
  }

  lemma SameSums(f: Row -> int, f': Row -> int, g: Row -> int)
    requires Same(f', f)
    ensures Same(AddedTo(f', g), AddedTo(f, g))
  {
  }

  // ---- every later run ----

  // A delta of the source as the node's side consumes it.
  ghost function Consumed(share: Share, delta: ZSet<Row>): ZSet<Row> {
    if share.Share? then Shown(share.proj, delta) else delta
  }

  method Consume(share: Share, delta: ZSet<Row>) returns (r: ZSet<Row>)
    requires Normal(delta)
    ensures r == Consumed(share, delta) && Normal(r)
  {
    r := delta;
    if share.Share? && share.proj.Some? {
      r := ProjectBucket(share.proj.value, delta);
    }
  }

  // The arrangement of a side stands for its integrated input.
  ghost predicate Attached(c: Config, left: bool, share: Share, own: ZSet<Row>)
    reads share.Objects()
  {
    share.FitsSide(c, left) && (share.Share? ==> share.Content() == own)
  }

  // What a run asks of a source's delta.
  ghost predicate Feedable(c: Config, left: bool, share: Share, own: ZSet<Row>, delta: ZSet<Row>) {
    && Typed(c, left, Consumed(share, delta)) && NonNeg(Plus(own, Consumed(share, delta)))
    && Fits(c, left, share.Share?, Consumed(share, delta)) && Normal(delta)
    && (share.Share? ==> share.arr.Takes(delta))
  }

  // The manager applies a source's delta to its arrangement before the nodes step.
  method ApplyShared(c: Config, left: bool, share: Share, delta: ZSet<Row>, ghost own: ZSet<Row>)
    requires Attached(c, left, share, own) && Typed(c, left, own) && Feedable(c, left, share, own, delta)
    modifies share.Objects()
    ensures Attached(c, left, share, if share.Share? then Plus(own, Consumed(share, delta)) else own)
  {
    if share.Share? {
      if share.proj.Some? {
        ProjectPlus(share.proj.value, share.arr.content, delta);
      }
      share.arr.Apply(delta);
    }
  }

  lemma AttachedReady(node: PlanJoinNode, L': ZSet<Row>, R': ZSet<Row>, dl: ZSet<Row>, dr: ZSet<Row>)
    requires node.Valid() && L' == Plus(node.L, dl) && R' == Plus(node.R, dr)
    requires Attached(node.c, true, node.sharedLeft, if node.sharedLeft.Share? then L' else node.L)
    requires Attached(node.c, false, node.sharedRight, if node.sharedRight.Share? then R' else node.R)
    requires Typed(node.c, true, dl) && NonNeg(L') && NonNeg(R')
    requires Fits(node.c, true, node.sharedLeft.Share?, dl) && Fits(node.c, false, node.sharedRight.Share?, dr)
    ensures node.Steppable(dl, dr)
  {
  }

  ghost predicate Distinct(left: Share, right: Share) {
    left.Share? && right.Share? ==> left.arr != right.arr
  }

  // Both nodes over the same arrangements, with the same integrated inputs.
  ghost predicate Together(node: PlanJoinNode, twin: PlanJoinNode, shareL: Share, shareR: Share, L: ZSet<Row>, R: ZSet<Row>)
    reads node, twin, shareL.Objects(), shareR.Objects()
  {
    && node.Valid() && twin.Valid() && Twins(node, twin) && SameInputs(node, twin)
    && node.sharedLeft == shareL && node.sharedRight == shareR && node.L == L && node.R == R
    && Attached(node.c, true, shareL, L) && Attached(node.c, false, shareR, R)
  }

  // One commit: both arrangements take their deltas, then both nodes step.
  method FeedBoth(node: PlanJoinNode, twin: PlanJoinNode, shareL: Share, shareR: Share, dl: ZSet<Row>, dr: ZSet<Row>,
                  ghost L: ZSet<Row>, ghost R: ZSet<Row>)
    requires Together(node, twin, shareL, shareR, L, R) && Distinct(shareL, shareR)
    requires Feedable(node.c, true, shareL, L, dl) && Feedable(node.c, false, shareR, R, dr)
    modifies node, twin, shareL.Objects(), shareR.Objects()
    ensures Together(node, twin, shareL, shareR, Plus(L, Consumed(shareL, dl)), Plus(R, Consumed(shareR, dr)))
    ensures node.output == twin.output
  {
    var cl := Consume(shareL, dl);
    var cr := Consume(shareR, dr);
    ApplyTwo(node.c, shareL, shareR, dl, dr, L, R);
    StepAttached(node, twin, cl, cr);
  }

  method ApplyTwo(c: Config, shareL: Share, shareR: Share, dl: ZSet<Row>, dr: ZSet<Row>, ghost L: ZSet<Row>, ghost R: ZSet<Row>)
    requires Distinct(shareL, shareR) && Attached(c, true, shareL, L) && Attached(c, false, shareR, R)
    requires Typed(c, true, L) && Feedable(c, true, shareL, L, dl) && Feedable(c, false, shareR, R, dr)
    modifies shareL.Objects(), shareR.Objects()
    ensures Attached(c, true, shareL, if shareL.Share? then Plus(L, Consumed(shareL, dl)) else L)
    ensures Attached(c, false, shareR, if shareR.Share? then Plus(R, Consumed(shareR, dr)) else R)
  {
    ApplyShared(c, true, shareL, dl, L);
    ApplyShared(c, false, shareR, dr, R);
  }

  method StepAttached(node: PlanJoinNode, twin: PlanJoinNode, dl: ZSet<Row>, dr: ZSet<Row>)
    requires node.Valid() && twin.Valid() && Twins(node, twin) && SameInputs(node, twin)
    requires Attached(node.c, true, node.sharedLeft, if node.sharedLeft.Share? then Plus(node.L, dl) else node.L)
    requires Attached(node.c, false, node.sharedRight, if node.sharedRight.Share? then Plus(node.R, dr) else node.R)
    requires Typed(node.c, true, dl) && NonNeg(Plus(node.L, dl)) && NonNeg(Plus(node.R, dr))
    requires Fits(node.c, true, node.sharedLeft.Share?, dl) && Fits(node.c, false, node.sharedRight.Share?, dr)
    modifies node, twin
    ensures node.Valid() && twin.Valid() && Twins(node, twin) && SameInputs(node, twin) && node.output == twin.output
    ensures node.sharedLeft == old(node.sharedLeft) && node.sharedRight == old(node.sharedRight)
    ensures node.L == Plus(old(node.L), dl) && node.R == Plus(old(node.R), dr)
    ensures Attached(node.c, true, node.sharedLeft, node.L) && Attached(node.c, false, node.sharedRight, node.R)
  {
    AttachedReady(node, Plus(node.L, dl), Plus(node.R, dr), dl, dr);
    StepBoth(node, twin, dl, dr);
  }

  // The integrated input after a prefix of later deltas.
  ghost function After(share: Share, z: ZSet<Row>, ds: seq<ZSet<Row>>): ZSet<Row> {
    if ds == [] then z else Plus(After(share, z, ds[..|ds| - 1]), Consumed(share, ds[|ds| - 1]))
  }

  ghost predicate FeedableRun(c: Config, left: bool, share: Share, own: ZSet<Row>, ds: seq<ZSet<Row>>) {
    forall i {:trigger ds[i]} :: 0 <= i < |ds| ==> Feedable(c, left, share, After(share, own, ds[..i]), ds[i])
  }

  // Every later run: the restored node and the original emit the same deltas.
  method RunBoth(node: PlanJoinNode, twin: PlanJoinNode, shareL: Share, shareR: Share, dls: seq<ZSet<Row>>, drs: seq<ZSet<Row>>,
                 ghost L: ZSet<Row>, ghost R: ZSet<Row>)
    returns (outs: seq<ZSet<Row>>, twinOuts: seq<ZSet<Row>>)
    requires Together(node, twin, shareL, shareR, L, R) && Distinct(shareL, shareR) && |dls| == |drs|
    requires FeedableRun(node.c, true, shareL, L, dls) && FeedableRun(node.c, false, shareR, R, drs)
    modifies node, twin, shareL.Objects(), shareR.Objects()
    ensures |outs| == |dls| && outs == twinOuts
    ensures Together(node, twin, shareL, shareR, After(shareL, L, dls), After(shareR, R, drs))
    decreases |dls|
  {
    outs, twinOuts := [], [];
    if dls != [] {
      var n := |dls| - 1;
      FeedablePrefix(node.c, true, shareL, L, dls);
      FeedablePrefix(node.c, false, shareR, R, drs);
      outs, twinOuts := RunBoth(node, twin, shareL, shareR, dls[..n], drs[..n], L, R);
      FeedBoth(node, twin, shareL, shareR, dls[n], drs[n], After(shareL, L, dls[..n]), After(shareR, R, drs[..n]));
      outs, twinOuts := outs + [node.output], twinOuts + [twin.output];
    }
  }

  lemma FeedablePrefix(c: Config, left: bool, share: Share, own: ZSet<Row>, ds: seq<ZSet<Row>>)
    requires FeedableRun(c, left, share, own, ds) && ds != []
    ensures FeedableRun(c, left, share, own, ds[..|ds| - 1])
    ensures Feedable(c, left, share, After(share, own, ds[..|ds| - 1]), ds[|ds| - 1])
  {
    var n := |ds| - 1;
    forall i | 0 <= i < n ensures Feedable(c, left, share, After(share, own, ds[..n][..i]), ds[..n][i]) {
      assert ds[..n][..i] == ds[..i] && ds[..n][i] == ds[i];
    }
  }
}
