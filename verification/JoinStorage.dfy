// How one side of a join is stored and probed: boxed bucket maps or packed
// layers, behind an optional column projection (include/dbsp_plan_join.hpp,
// include/dbsp_packed_row.hpp).
module JoinStorage {
  import opened ZSets
  import opened Rows
  import opened JoinSemantics
  import PackedRow
  import B = Buckets
  import P = PackedIntegrate
  import F = FlatPacked
  import T = FlatTotals

  type Bytes = B.Bytes

  // ---- rows as bytes ----

  // Rows the codec carries: supported types, lengths within 32 bits. A row it
  // does not carry has no encoding.
  predicate Codable(f: Form, r: Row) {
    PackedRow.StorableRow(f.pack(r)) && f.unpack(f.pack(r)) == r
  }

  function Enc(f: Form, r: Row): Bytes {
    PackedRow.EncodedRow(f.pack(r))
  }

  lemma EncInjective(f: Form, r: Row, s: Row)
    requires Codable(f, r) && Codable(f, s) && Enc(f, r) == Enc(f, s)
    ensures r == s
  {
    PackedRow.RowBytesAreCanonical(f.pack(r), f.pack(s), [], []);
  }

  ghost predicate Encoded(f: Form, b: Bytes) {
    exists r {:trigger Codable(f, r)} :: Codable(f, r) && Enc(f, r) == b
  }

  ghost function RowOf(f: Form, b: Bytes): (r: Row)
    ensures Encoded(f, b) ==> Codable(f, r) && Enc(f, r) == b
  {
    if r :| Codable(f, r) && Enc(f, r) == b then r else []
  }

  lemma RowOfEnc(f: Form, r: Row)
    requires Codable(f, r)
    ensures RowOf(f, Enc(f, r)) == r && Encoded(f, Enc(f, r))
  {
    EncInjective(f, RowOf(f, Enc(f, r)), r);
  }

  method Encode(f: Form, r: Row) returns (b: Bytes)
    requires Codable(f, r)
    ensures b == Enc(f, r)
  {
    var out := PackedRow.EncodeRow(f.pack(r));
    b := out.value;
  }

  method Decode(f: Form, b: Bytes) returns (r: Row)
    requires Encoded(f, b)
    ensures r == RowOf(f, b)
  {
    ghost var row := f.pack(RowOf(f, b));
    assert b[0..0 + |b|] == b;
    var vs, end := PackedRow.DecodeRow(b, 0, row);
    r := f.unpack(vs);
  }

  ghost predicate AllEncoded(f: Form, b: B.Bucket) {
    forall i {:trigger b[i]} :: 0 <= i < |b| ==> Encoded(f, b[i].row)
  }

  // The rows a list of entries holds.
  ghost function Decoded(f: Form, b: B.Bucket): (z: ZSet<Row>)
    ensures Normal(z)
  {
    if b == [] then map[]
    else Insert(Decoded(f, b[..|b| - 1]), RowOf(f, b[|b| - 1].row), b[|b| - 1].weight)
  }

  lemma {:induction false} DecodedWeight(f: Form, b: B.Bucket, r: Row)
    requires AllEncoded(f, b)
    ensures W(Decoded(f, b), r) == if Codable(f, r) then B.Weight(b, Enc(f, r)) else 0
  {
    if b != [] {
      DecodedWeight(f, b[..|b| - 1], r);
      DecodedShare(f, b[|b| - 1], r);
    }
  }

  lemma DecodedShare(f: Form, e: B.Entry, r: Row)
    requires Encoded(f, e.row)
    ensures (if RowOf(f, e.row) == r then e.weight else 0)
         == if Codable(f, r) then B.Share(e, Enc(f, r)) else 0
  {
    if Codable(f, r) && Enc(f, r) == e.row {
      EncInjective(f, RowOf(f, e.row), r);
    }
  }

  // ---- bucket maps ----

  type Index = map<Row, ZSet<Row>>

  function RowsAt(index: Index, k: Row): ZSet<Row> {
    if k in index then index[k] else map[]
  }

  ghost predicate NormalIndex(index: Index) {
    forall k :: k in index ==> Normal(index[k]) && index[k] != map[]
  }

  function IndexInsert(index: Index, k: Row, row: Row, w: int): (r: Index)
    ensures NormalIndex(index) ==> NormalIndex(r)
    ensures forall k', row' {:trigger W(RowsAt(r, k'), row')} ::
              W(RowsAt(r, k'), row') == W(RowsAt(index, k'), row') + if k' == k && row' == row then w else 0
  {
    var bucket := Insert(RowsAt(index, k), row, w);
    if bucket == map[] then index - {k} else index[k := bucket]
  }

  // ---- one side's storage ----

  // Either the bucket map is in use, or both packed layers are and the
  // bucket map stays empty.
  datatype Store = Store(packed: bool, index: Index, keyForm: Form, rowForm: Form, flat: F.Flat, overlay: P.Index)

  function NewStore(packed: bool, keyForm: Form, rowForm: Form): Store {
    Store(packed, map[], keyForm, rowForm, F.Flat([], [], []), map[])
  }

  ghost predicate LayersOk(f: Form, flat: F.Flat, overlay: P.Index) {
    && F.FlatOk(flat) && P.CleanIndex(overlay)
    && (forall kb {:trigger AllEncoded(f, F.Lookup(flat, kb))} :: AllEncoded(f, F.Lookup(flat, kb)))
    && forall kb {:trigger AllEncoded(f, P.At(overlay, kb))} :: AllEncoded(f, P.At(overlay, kb))
  }

  ghost predicate StoreOk(s: Store) {
    if s.packed then s.index == map[] && LayersOk(s.rowForm, s.flat, s.overlay) else NormalIndex(s.index)
  }

  ghost function LayersAt(s: Store, k: Row): (z: ZSet<Row>)
    ensures Normal(z)
  {
    if Codable(s.keyForm, k) && F.InBounds(s.flat)
    then Decoded(s.rowForm, F.Lookup(s.flat, Enc(s.keyForm, k)) + P.At(s.overlay, Enc(s.keyForm, k)))
    else map[]
  }

  // The rows stored under a key.
  ghost function At(s: Store, k: Row): ZSet<Row> {
    if s.packed then LayersAt(s, k) else RowsAt(s.index, k)
  }

  lemma LayersWeight(s: Store, k: Row, r: Row)
    requires LayersOk(s.rowForm, s.flat, s.overlay) && Codable(s.keyForm, k)
    ensures W(LayersAt(s, k), r) == if !Codable(s.rowForm, r) then 0 else
              B.Weight(F.Lookup(s.flat, Enc(s.keyForm, k)), Enc(s.rowForm, r))
              + B.Weight(P.At(s.overlay, Enc(s.keyForm, k)), Enc(s.rowForm, r))
  {
    var a, b := F.Lookup(s.flat, Enc(s.keyForm, k)), P.At(s.overlay, Enc(s.keyForm, k));
    assert AllEncoded(s.rowForm, a) && AllEncoded(s.rowForm, b);
    DecodedWeight(s.rowForm, a + b, r);
    B.WeightConcat(a, b, Enc(s.rowForm, r));
  }

  // ---- consumer projections ----

  function Project(proj: seq<nat>, row: Row): Row {
    seq(|proj|, i requires 0 <= i < |proj| => if proj[i] < |row| then row[proj[i]] else Null)
  }

  ghost function Onto(proj: seq<nat>, x: Row): Row -> bool {
    y => Project(proj, y) == x
  }

  // Rows that agree on the projected columns collapse into one.
  ghost function ProjectZ(proj: seq<nat>, z: ZSet<Row>): (r: ZSet<Row>)
    ensures Normal(r)
    ensures forall x {:trigger W(r, x)} :: W(r, x) == Mass(z, Onto(proj, x))
  {
    var image := set y | y in z :: Project(proj, y);
    var r := map x | x in image && Mass(z, Onto(proj, x)) != 0 :: Mass(z, Onto(proj, x));
    assert forall x {:trigger W(r, x)} :: W(r, x) == Mass(z, Onto(proj, x)) by {
      forall x | x !in image ensures Mass(z, Onto(proj, x)) == 0 {
        MassNowhere(z, Onto(proj, x));
      }
    }
    r
  }

  lemma MassNowhere(z: ZSet<Row>, p: Row -> bool)
    requires forall y :: y in z ==> !p(y)
    ensures Mass(z, p) == 0
  {
    MassSign(z, p);
  }

  lemma MassStep(z: ZSet<Row>, todo: set<Row>, x: Row, p: Row -> bool)
    requires x in todo && x in z && z[x] != 0
    ensures Mass(z - (todo - {x}), p) == Mass(z - todo, p) + if p(x) then z[x] else 0
  {
    MassInsert(z - todo, x, z[x], p);
    assert Insert(z - todo, x, z[x]) == z - (todo - {x});
  }

  // A column projection moves with the deltas.
  lemma ProjectPlus(proj: seq<nat>, a: ZSet<Row>, b: ZSet<Row>)
    ensures ProjectZ(proj, Plus(a, b)) == Plus(ProjectZ(proj, a), ProjectZ(proj, b))
  {
    forall x ensures W(ProjectZ(proj, Plus(a, b)), x) == W(ProjectZ(proj, a), x) + W(ProjectZ(proj, b), x) {
      MassPlus(a, b, Onto(proj, x));
    }
    Extensional(ProjectZ(proj, Plus(a, b)), Plus(ProjectZ(proj, a), ProjectZ(proj, b)));
  }

  // A side as a join node reads it.
  datatype View = View(shared: bool, store: Store, proj: Option<seq<nat>>)

  // The rows a probe for a key has to find.
  ghost function Read(v: View, k: Row): ZSet<Row> {
    if v.proj.Some? then ProjectZ(v.proj.value, At(v.store, k)) else At(v.store, k)
  }

  ghost predicate ViewOk(v: View) {
    StoreOk(v.store) && (v.proj.Some? ==> v.shared)
  }

  lemma ReadNormal(v: View, k: Row)
    requires ViewOk(v)
    ensures Normal(Read(v, k))
  {
    if v.proj.None? && !v.store.packed {
      var rows := RowsAt(v.store.index, k);
      assert Normal(rows);
      assert Read(v, k) == rows;
    }
  }

  // ---- probing ----

  // The rows decoded so far; `todo` are the bytes still to come.
  ghost predicate Decoding(f: Form, out: ZSet<Bytes>, todo: set<Bytes>, z: ZSet<Row>) {
    Normal(z) && forall r {:trigger W(z, r)} :: W(z, r) == if Codable(f, r) && Enc(f, r) !in todo then W(out, Enc(f, r)) else 0
  }

  lemma DecodingStep(f: Form, out: ZSet<Bytes>, todo: set<Bytes>, z: ZSet<Row>, b: Bytes)
    requires Decoding(f, out, todo, z) && b in todo && b in out && Encoded(f, b)
    ensures Decoding(f, out, todo - {b}, Insert(z, RowOf(f, b), out[b]))
  {
    var row := RowOf(f, b);
    var z' := Insert(z, row, out[b]);
    forall r ensures W(z', r) == if Codable(f, r) && Enc(f, r) !in todo - {b} then W(out, Enc(f, r)) else 0 {
      if Codable(f, r) && Enc(f, r) == b {
        EncInjective(f, row, r);
      }
    }
  }

  method DecodeRows(f: Form, out: ZSet<Bytes>) returns (z: ZSet<Row>)
    requires Normal(out) && forall b :: b in out ==> Encoded(f, b)
    ensures Normal(z)
    ensures forall r {:trigger W(z, r)} :: W(z, r) == if Codable(f, r) then W(out, Enc(f, r)) else 0
  {
    z := map[];
    var todo := out.Keys;
    while todo != {}
      invariant todo <= out.Keys && Decoding(f, out, todo, z)
      decreases todo
    {
      var b :| b in todo;
      var row := Decode(f, b);
      DecodingStep(f, out, todo, z, b);
      z := Insert(z, row, out[b]);
      todo := todo - {b};
    }
  }

  method ProbeLayers(s: Store, key: Row) returns (bucket: ZSet<Row>)
    requires s.packed && StoreOk(s)
    ensures bucket == At(s, key)
  {
    if !Codable(s.keyForm, key) {
      return map[];
    }
    var kb := Encode(s.keyForm, key);
    var found, out := F.ProbePacked(s.overlay, s.flat, kb);
    ProbedEncoded(s, kb, out);
    bucket := DecodeRows(s.rowForm, out);
    forall r ensures W(bucket, r) == W(LayersAt(s, key), r) {
      LayersWeight(s, key, r);
    }
    Extensional(bucket, LayersAt(s, key));
  }

  // Only stored rows are found, and those are encodings.
  lemma ProbedEncoded(s: Store, kb: Bytes, out: ZSet<Bytes>)
    requires s.packed && StoreOk(s) && F.Probed(s.flat, P.At(s.overlay, kb), kb, out)
    ensures forall b :: b in out ==> Encoded(s.rowForm, b)
  {
    var x, y := F.Lookup(s.flat, kb), P.At(s.overlay, kb);
    assert AllEncoded(s.rowForm, x) && AllEncoded(s.rowForm, y);
    forall b | b in out ensures Encoded(s.rowForm, b) {
      assert W(out, b) == B.Weight(x, b) + B.Weight(y, b);
      EncodedIfPresent(s.rowForm, x, b);
      EncodedIfPresent(s.rowForm, y, b);
    }
  }

  lemma EncodedIfPresent(f: Form, b: B.Bucket, row: Bytes)
    requires AllEncoded(f, b)
    ensures B.Weight(b, row) != 0 ==> Encoded(f, row)
  {
    if i :| 0 <= i < |b| && b[i].row == row {
    } else {
      B.WeightAbsent(b, row);
    }
  }

  // A bucket as the consumer's columns.
  method ProjectBucket(proj: seq<nat>, bucket: ZSet<Row>) returns (out: ZSet<Row>)
    requires Normal(bucket)
    ensures out == ProjectZ(proj, bucket)
  {
    out := map[];
    var todo := bucket.Keys;
    assert bucket - todo == map[];
    forall x ensures Mass(bucket - todo, Onto(proj, x)) == 0 {
      MassNowhere(bucket - todo, Onto(proj, x));
    }
    while todo != {}
      invariant todo <= bucket.Keys && Normal(out)
      invariant forall x {:trigger W(out, x)} :: W(out, x) == Mass(bucket - todo, Onto(proj, x))
      decreases todo
    {
      var row :| row in todo;
      ghost var was := out;
      out := Insert(out, Project(proj, row), bucket[row]);
      forall x ensures W(out, x) == Mass(bucket - (todo - {row}), Onto(proj, x)) {
        MassStep(bucket, todo, row, Onto(proj, x));
        assert W(was, x) == Mass(bucket - todo, Onto(proj, x));
      }
      todo := todo - {row};
    }
    assert bucket - {} == bucket;
    Extensional(out, ProjectZ(proj, bucket));
  }

  // probe_projected: the bucket map, through the projection.
  method ProbeProjected(index: Index, key: Row, proj: seq<nat>) returns (bucket: ZSet<Row>)
    requires NormalIndex(index)
    ensures bucket == ProjectZ(proj, RowsAt(index, key))
  {
    bucket := ProjectBucket(proj, RowsAt(index, key));
  }

  // probe_side: packed layers, bucket map behind a projection, bucket map.
  method ProbeSide(v: View, key: Row) returns (bucket: ZSet<Row>)
    requires ViewOk(v)
    ensures bucket == Read(v, key)
  {
    if v.shared && v.store.packed {
      bucket := ProbeLayers(v.store, key);
      if v.proj.Some? {
        bucket := ProjectBucket(v.proj.value, bucket);
      }
    } else if v.shared && v.proj.Some? {
      bucket := ProbeProjected(v.store.index, key, v.proj.value);
    } else if !v.shared && v.store.packed {
      bucket := ProbeLayers(v.store, key);
    } else {
      bucket := RowsAt(v.store.index, key);
    }
  }

  // How a pass asks for a bucket: row by row in the serial pass, or from the
  // range-split pass, in the caller's thread or in one of its own.
  datatype Way = Serial | Inline | Threaded

  // A shared side whose threaded probes go to a bucket map nobody fills.
  predicate Blind(v: View) {
    v.shared && v.store.packed && v.proj.Some?
  }

  // The side as the probes of a pass reach it.
  function Reached(v: View, way: Way): View {
    if way.Threaded? && Blind(v) then v.(store := v.store.(packed := false)) else v
  }

  // probe_one: with a scratch of its own, a thread asks a projected
  // arrangement for its bucket map before it looks at the storage.
  method ProbeOne(v: View, threaded: bool, key: Row) returns (bucket: ZSet<Row>)
    requires ViewOk(v)
    ensures bucket == Read(Reached(v, if threaded then Threaded else Inline), key)
  {
    if v.shared && v.proj.Some? && threaded {
      bucket := ProbeProjected(v.store.index, key, v.proj.value);
    } else {
      bucket := ProbeSide(v, key);
    }
  }

  // The serial pass reads a plain bucket map directly.
  method ProbeSerial(v: View, key: Row) returns (bucket: ZSet<Row>)
    requires ViewOk(v)
    ensures bucket == Read(v, key)
  {
    if (v.shared && (v.store.packed || v.proj.Some?)) || (!v.shared && v.store.packed) {
      bucket := ProbeSide(v, key);
    } else {
      bucket := RowsAt(v.store.index, key);
    }
  }

  method Probe(v: View, way: Way, key: Row) returns (bucket: ZSet<Row>)
    requires ViewOk(v)
    ensures Normal(bucket) && bucket == Read(Reached(v, way), key)
  {
    if way.Serial? {
      bucket := ProbeSerial(v, key);
    } else {
      bucket := ProbeOne(v, way.Threaded?, key);
    }
    ReachedOk(v, way);
    ReadNormal(Reached(v, way), key);
  }

  lemma ReachedOk(v: View, way: Way)
    requires ViewOk(v)
    ensures ViewOk(Reached(v, way))
  {
  }

  // Threads find nothing on a blind side.
  lemma BlindReadsNothing(v: View, k: Row)
    requires ViewOk(v) && Blind(v)
    ensures Read(Reached(v, Threaded), k) == map[]
  {
    ProjectedNothing(v.proj.value);
  }

  lemma ProjectedNothing(proj: seq<nat>)
    ensures ProjectZ(proj, map[]) == map[]
  {
    forall x ensures W(ProjectZ(proj, map[]), x) == 0 {
      MassNowhere(map[], Onto(proj, x));
    }
    Extensional(ProjectZ(proj, map[]), map[]);
  }
}

// What one side keeps of its integrated input, and how a delta is added to it.
module JoinSides {
  import opened ZSets
  import opened Rows
  import opened JoinSemantics
  import opened JoinStorage
  import B = Buckets
  import P = PackedIntegrate
  import F = FlatPacked
  import T = FlatTotals

  ghost predicate ReadsAt(keys: KeyExprs, nullSafe: bool, v: View, content: ZSet<Row>, k: Row, r: Row) {
    W(Read(v, k), r) == if EvalKey(keys, nullSafe, r) == Some(k) then W(content, r) else 0
  }

  // The side holds exactly the rows of `content` that have a key.
  ghost predicate Indexes(keys: KeyExprs, nullSafe: bool, v: View, content: ZSet<Row>) {
    && ViewOk(v)
    && forall k, r {:trigger W(Read(v, k), r)} {:trigger ReadsAt(keys, nullSafe, v, content, k, r)} ::
         ReadsAt(keys, nullSafe, v, content, k, r)
  }

  // Besides the rows by key: the row totals needed by pads and marks (packed
  // in two layers when the side is), and the counters needed by marks.
  datatype Side = Side(view: View, weights: ZSet<Row>, flatTotals: B.Bucket, newTotals: ZSet<Bytes>, total: int, nulls: int)

  function NewSide(packed: bool, keyForm: Form, rowForm: Form): Side {
    Side(View(false, NewStore(packed, keyForm, rowForm), None), map[], [], map[], 0, 0)
  }

  ghost function RowMass(z: ZSet<Row>): int { Mass(z, _ => true) }

  ghost function NullMass(keys: KeyExprs, nullSafe: bool, z: ZSet<Row>): int {
    Mass(z, r => EvalKey(keys, nullSafe, r).None?)
  }

  predicate PackedHere(side: Side) {
    side.view.store.packed && !side.view.shared
  }

  ghost function PackedTotal(side: Side, row: Row): int {
    if Codable(side.view.store.rowForm, row)
    then T.BothTotals(side.flatTotals, side.newTotals, Enc(side.view.store.rowForm, row)) else 0
  }

  ghost predicate Weighs(side: Side, content: ZSet<Row>) {
    if PackedHere(side) then
      T.TotalsOk(side.flatTotals) && Normal(side.newTotals)
      && forall row {:trigger PackedTotal(side, row)} :: PackedTotal(side, row) == W(content, row)
    else side.weights == content
  }

  ghost predicate Represents(keys: KeyExprs, nullSafe: bool, weighted: bool, counted: bool,
                             side: Side, content: ZSet<Row>) {
    && Normal(content)
    && Indexes(keys, nullSafe, side.view, content)
    && (weighted ==> Weighs(side, content))
    && (counted ==> side.total == RowMass(content) && side.nulls == NullMass(keys, nullSafe, content))
  }

  lemma EmptyRepresents(keys: KeyExprs, nullSafe: bool, weighted: bool, counted: bool, packed: bool, keyForm: Form, rowForm: Form)
    ensures Represents(keys, nullSafe, weighted, counted, NewSide(packed, keyForm, rowForm), map[])
  {
  }

  // own_row_weight: a shared arrangement's total, the two packed layers'
  // total, or the row map's.
  method OwnRowWeight(side: Side, row: Row, ghost content: ZSet<Row>) returns (w: int)
    requires Weighs(side, content)
    ensures w == W(content, row)
  {
    if side.view.shared || !side.view.store.packed {
      return W(side.weights, row);
    }
    assert PackedTotal(side, row) == W(content, row);
    if !Codable(side.view.store.rowForm, row) {
      return 0;
    }
    var rb := Encode(side.view.store.rowForm, row);
    var older := T.FindTotal(side.flatTotals, rb);
    w := W(side.newTotals, rb) + older;
  }

  // ---- materialized deltas ----

  // One materialized delta row with its key; None marks a NULL key.
  datatype DeltaRow = DeltaRow(row: Row, weight: int, key: Option<Row>)

  ghost predicate Materialized(keys: KeyExprs, nullSafe: bool, dk: seq<DeltaRow>, delta: ZSet<Row>) {
    && (forall i, j :: 0 <= i < j < |dk| ==> dk[i].row != dk[j].row)
    && (forall i :: 0 <= i < |dk| ==> dk[i].row in delta && dk[i].weight == delta[dk[i].row]
                                      && dk[i].key == EvalKey(keys, nullSafe, dk[i].row))
    && (forall x :: x in delta ==> exists i :: 0 <= i < |dk| && dk[i].row == x)
  }

  method MaterializeKeys(keys: KeyExprs, nullSafe: bool, delta: ZSet<Row>) returns (dk: seq<DeltaRow>)
    ensures Materialized(keys, nullSafe, dk, delta) && |dk| == |delta|
  {
    dk := [];
    var todo := delta.Keys;
    while todo != {}
      invariant todo <= delta.Keys && |dk| + |todo| == |delta|
      invariant forall i :: 0 <= i < |dk| ==> dk[i].row !in todo
      invariant forall i, j :: 0 <= i < j < |dk| ==> dk[i].row != dk[j].row
      invariant forall i :: 0 <= i < |dk| ==> dk[i].row in delta && dk[i].weight == delta[dk[i].row]
                                              && dk[i].key == EvalKey(keys, nullSafe, dk[i].row)
      invariant forall x :: x in delta && x !in todo ==> exists i :: 0 <= i < |dk| && dk[i].row == x
      decreases todo
    {
      var row :| row in todo;
      todo := todo - {row};
      ghost var was := dk;
      dk := dk + [DeltaRow(row, delta[row], EvalKey(keys, nullSafe, row))];
      assert dk[|was|].row == row;
      forall x | x in delta && x !in todo ensures exists i :: 0 <= i < |dk| && dk[i].row == x {
        if x != row {
          var i :| 0 <= i < |was| && was[i].row == x;
          assert dk[i].row == x;
        }
      }
    }
  }

  // What a materialized delta gives to one row.
  ghost function Given(dk: seq<DeltaRow>, row: Row): int {
    if dk == [] then 0
    else Given(dk[..|dk| - 1], row) + if dk[|dk| - 1].row == row then dk[|dk| - 1].weight else 0
  }

  lemma {:induction false} GivenZero(dk: seq<DeltaRow>, row: Row)
    requires forall i :: 0 <= i < |dk| ==> dk[i].row != row
    ensures Given(dk, row) == 0
  {
    if dk != [] {
      GivenZero(dk[..|dk| - 1], row);
    }
  }

  lemma {:induction false} GivenAt(dk: seq<DeltaRow>, i: nat)
    requires i < |dk| && forall i, j :: 0 <= i < j < |dk| ==> dk[i].row != dk[j].row
    ensures Given(dk, dk[i].row) == dk[i].weight
  {
    var n := |dk| - 1;
    if i < n {
      GivenAt(dk[..n], i);
    } else {
      GivenZero(dk[..n], dk[n].row);
    }
  }

  lemma GivenIsWeight(keys: KeyExprs, nullSafe: bool, dk: seq<DeltaRow>, delta: ZSet<Row>, row: Row)
    requires Materialized(keys, nullSafe, dk, delta)
    ensures Given(dk, row) == W(delta, row)
  {
    if row in delta {
      var i :| 0 <= i < |dk| && dk[i].row == row;
      GivenAt(dk, i);
    } else {
      GivenZero(dk, row);
    }
  }

  // ---- integration into bucket maps ----

  // One row of a delta applied to one side.
  function SideStep(keys: KeyExprs, nullSafe: bool, weighted: bool, counted: bool, side: Side, row: Row, w: int): Side {
    var key := EvalKey(keys, nullSafe, row);
    var store := side.view.store;
    side.(view := side.view.(store := store.(index :=
            if key.Some? then IndexInsert(store.index, key.value, row, w) else store.index)),
          weights := if weighted then Insert(side.weights, row, w) else side.weights,
          total := if counted then side.total + w else side.total,
          nulls := if counted && key.None? then side.nulls + w else side.nulls)
  }

  predicate PlainSide(side: Side) {
    !side.view.store.packed && side.view.proj.None?
  }

  lemma StepIndexed(keys: KeyExprs, nullSafe: bool, v: View, v': View, content: ZSet<Row>, row: Row, w: int)
    requires !v.store.packed && v.proj.None? && Indexes(keys, nullSafe, v, content)
    requires var key := EvalKey(keys, nullSafe, row);
             v' == v.(store := v.store.(index := if key.Some? then IndexInsert(v.store.index, key.value, row, w) else v.store.index))
    ensures Indexes(keys, nullSafe, v', Insert(content, row, w))
  {
    forall k, r ensures ReadsAt(keys, nullSafe, v', Insert(content, row, w), k, r) {
      assert ReadsAt(keys, nullSafe, v, content, k, r);
      assert Read(v, k) == RowsAt(v.store.index, k) && Read(v', k) == RowsAt(v'.store.index, k);
    }
  }

  lemma SideStepRepresents(keys: KeyExprs, nullSafe: bool, weighted: bool, counted: bool,
                           side: Side, content: ZSet<Row>, row: Row, w: int)
    requires PlainSide(side) && Represents(keys, nullSafe, weighted, counted, side, content)
    ensures PlainSide(SideStep(keys, nullSafe, weighted, counted, side, row, w))
    ensures Represents(keys, nullSafe, weighted, counted,
                       SideStep(keys, nullSafe, weighted, counted, side, row, w), Insert(content, row, w))
  {
    StepIndexed(keys, nullSafe, side.view, SideStep(keys, nullSafe, weighted, counted, side, row, w).view, content, row, w);
    if counted {
      MassInsert(content, row, w, _ => true);
      MassInsert(content, row, w, x => EvalKey(keys, nullSafe, x).None?);
    }
  }

  // One more row of the delta is applied; `todo` are the rows still to come.
  lemma PlusStep(content: ZSet<Row>, delta: ZSet<Row>, todo: set<Row>, row: Row)
    requires row in todo && row in delta
    ensures Insert(Plus(content, delta - todo), row, delta[row]) == Plus(content, delta - (todo - {row}))
  {
    forall x ensures W(delta - (todo - {row}), x) == W(delta - todo, x) + if x == row then delta[row] else 0 {}
    Extensional(Insert(Plus(content, delta - todo), row, delta[row]), Plus(content, delta - (todo - {row})));
  }

  lemma PlusNothing(content: ZSet<Row>)
    requires Normal(content)
    ensures Plus(content, map[]) == content
  {
    Extensional(content, Plus(content, map[]));
  }

  method IntegratePlain(keys: KeyExprs, nullSafe: bool, weighted: bool, counted: bool,
                        side: Side, delta: ZSet<Row>, ghost content: ZSet<Row>) returns (r: Side)
    requires PlainSide(side) && Represents(keys, nullSafe, weighted, counted, side, content)
    ensures PlainSide(r) && Represents(keys, nullSafe, weighted, counted, r, Plus(content, delta))
    ensures r.view == side.view.(store := side.view.store.(index := r.view.store.index))
              && r.newTotals == side.newTotals && r.flatTotals == side.flatTotals
  {
    r := side;
    var todo := delta.Keys;
    PlusNothing(content);
    assert delta - todo == map[];
    while todo != {}
      invariant todo <= delta.Keys
      invariant PlainSide(r) && Represents(keys, nullSafe, weighted, counted, r, Plus(content, delta - todo))
      invariant r.view == side.view.(store := side.view.store.(index := r.view.store.index))
              && r.newTotals == side.newTotals && r.flatTotals == side.flatTotals
      decreases todo
    {
      var row :| row in todo;
      SideStepRepresents(keys, nullSafe, weighted, counted, r, Plus(content, delta - todo), row, delta[row]);
      PlusStep(content, delta, todo, row);
      r := SideStep(keys, nullSafe, weighted, counted, r, row, delta[row]);
      todo := todo - {row};
    }
    assert delta - {} == delta;
  }

  // ---- integration into packed layers ----

  ghost predicate RowsCodable(keys: KeyExprs, nullSafe: bool, keyForm: Form, rowForm: Form, z: ZSet<Row>) {
    forall r {:trigger r in z} :: r in z ==>
      Codable(rowForm, r) && (EvalKey(keys, nullSafe, r).Some? ==> Codable(keyForm, EvalKey(keys, nullSafe, r).value))
  }

  // Rows and keys a packed side takes; others are an error there.
  ghost predicate RowsFit(keys: KeyExprs, nullSafe: bool, s: Store, z: ZSet<Row>) {
    s.packed ==> RowsCodable(keys, nullSafe, s.keyForm, s.rowForm, z)
  }

  ghost predicate RowFits(keys: KeyExprs, nullSafe: bool, s: Store, d: DeltaRow) {
    && d.key == EvalKey(keys, nullSafe, d.row) && Codable(s.rowForm, d.row)
    && (d.key.Some? ==> Codable(s.keyForm, d.key.value))
  }

  function PackRow(s: Store, d: DeltaRow): P.DeltaRow {
    P.DeltaRow(if d.key.Some? then Some(Enc(s.keyForm, d.key.value)) else None, Enc(s.rowForm, d.row), d.weight)
  }

  ghost predicate Packs(keys: KeyExprs, nullSafe: bool, s: Store, dk: seq<DeltaRow>, bs: seq<P.DeltaRow>) {
    |bs| == |dk| && forall i {:trigger bs[i]} {:trigger dk[i]} :: 0 <= i < |dk| ==> RowFits(keys, nullSafe, s, dk[i]) && bs[i] == PackRow(s, dk[i])
  }

  method EncodeDelta(keys: KeyExprs, nullSafe: bool, s: Store, dk: seq<DeltaRow>) returns (bs: seq<P.DeltaRow>)
    requires forall i :: 0 <= i < |dk| ==> RowFits(keys, nullSafe, s, dk[i])
    ensures Packs(keys, nullSafe, s, dk, bs)
  {
    bs := [];
    for i := 0 to |dk|
      invariant Packs(keys, nullSafe, s, dk[..i], bs)
    {
      var rb := Encode(s.rowForm, dk[i].row);
      var kb: Option<Bytes> := None;
      if dk[i].key.Some? {
        var b := Encode(s.keyForm, dk[i].key.value);
        kb := Some(b);
      }
      bs := bs + [P.DeltaRow(kb, rb, dk[i].weight)];
      assert dk[..i + 1] == dk[..i] + [dk[i]];
    }
    assert dk[..|dk|] == dk;
  }

  lemma ShareIs(keys: KeyExprs, nullSafe: bool, s: Store, d: DeltaRow, k: Row, r: Row)
    requires RowFits(keys, nullSafe, s, d) && Codable(s.keyForm, k) && Codable(s.rowForm, r)
    ensures PackRow(s, d).key == Some(Enc(s.keyForm, k)) <==> d.key == Some(k)
    ensures Enc(s.rowForm, d.row) == Enc(s.rowForm, r) <==> d.row == r
  {
    if d.key.Some? && Enc(s.keyForm, d.key.value) == Enc(s.keyForm, k) {
      EncInjective(s.keyForm, d.key.value, k);
    }
    if Enc(s.rowForm, d.row) == Enc(s.rowForm, r) {
      EncInjective(s.rowForm, d.row, r);
    }
  }

  lemma PacksPrefix(keys: KeyExprs, nullSafe: bool, s: Store, dk: seq<DeltaRow>, bs: seq<P.DeltaRow>)
    requires Packs(keys, nullSafe, s, dk, bs) && dk != []
    ensures Packs(keys, nullSafe, s, dk[..|dk| - 1], bs[..|bs| - 1])
    ensures RowFits(keys, nullSafe, s, dk[|dk| - 1]) && bs[|bs| - 1] == PackRow(s, dk[|dk| - 1])
  {
  }

  // What the packed delta adds under a key to a row is what the delta gives
  // to that row, if it has that key.
  lemma {:induction false} AddsAre(keys: KeyExprs, nullSafe: bool, s: Store, dk: seq<DeltaRow>, bs: seq<P.DeltaRow>, k: Row, r: Row)
    requires Packs(keys, nullSafe, s, dk, bs) && Codable(s.keyForm, k) && Codable(s.rowForm, r)
    ensures B.Weight(P.Adds(bs, Enc(s.keyForm, k)), Enc(s.rowForm, r))
         == if EvalKey(keys, nullSafe, r) == Some(k) then Given(dk, r) else 0
  {
    if dk != [] {
      var n := |dk| - 1;
      PacksPrefix(keys, nullSafe, s, dk, bs);
      AddsAre(keys, nullSafe, s, dk[..n], bs[..n], k, r);
      ShareIs(keys, nullSafe, s, dk[n], k, r);
      AddsLast(bs, Enc(s.keyForm, k), Enc(s.rowForm, r));
    }
  }

  lemma AddsLast(bs: seq<P.DeltaRow>, kb: Bytes, rb: Bytes)
    requires bs != []
    ensures var d := bs[|bs| - 1];
            B.Weight(P.Adds(bs, kb), rb) == B.Weight(P.Adds(bs[..|bs| - 1], kb), rb)
              + if d.key == Some(kb) && d.row == rb then d.w else 0
  {
    var d := bs[|bs| - 1];
    var before := P.Adds(bs[..|bs| - 1], kb);
    if d.key == Some(kb) {
      B.WeightPush(before, B.Entry(d.row, d.w), rb);
    } else {
      assert before + [] == before;
    }
  }

  lemma {:induction false} RowTotalIs(keys: KeyExprs, nullSafe: bool, s: Store, dk: seq<DeltaRow>, bs: seq<P.DeltaRow>, r: Row)
    requires Packs(keys, nullSafe, s, dk, bs) && Codable(s.rowForm, r)
    ensures P.RowTotal(bs, Enc(s.rowForm, r)) == Given(dk, r)
  {
    if dk != [] {
      var n := |dk| - 1;
      PacksPrefix(keys, nullSafe, s, dk, bs);
      RowTotalIs(keys, nullSafe, s, dk[..n], bs[..n], r);
      if Enc(s.rowForm, dk[n].row) == Enc(s.rowForm, r) {
        EncInjective(s.rowForm, dk[n].row, r);
      }
    }
  }

  lemma {:induction false} AddsEncoded(keys: KeyExprs, nullSafe: bool, s: Store, dk: seq<DeltaRow>, bs: seq<P.DeltaRow>, kb: Bytes)
    requires Packs(keys, nullSafe, s, dk, bs)
    ensures AllEncoded(s.rowForm, P.Adds(bs, kb))
  {
    if dk != [] {
      var n := |dk| - 1;
      PacksPrefix(keys, nullSafe, s, dk, bs);
      AddsEncoded(keys, nullSafe, s, dk[..n], bs[..n], kb);
      assert Encoded(s.rowForm, bs[n].row);
    }
  }

  // A merged bucket holds no rows but those of its two sources.
  lemma MergedEncoded(f: Form, before: B.Bucket, adds: B.Bucket, after: B.Bucket)
    requires AllEncoded(f, before) && AllEncoded(f, adds) && B.Clean(after)
    requires forall row :: B.Weight(after, row) == B.Weight(before, row) + B.Weight(adds, row)
    ensures AllEncoded(f, after)
  {
    forall i | 0 <= i < |after| ensures Encoded(f, after[i].row) {
      B.WeightPresent(after, i);
      EncodedIfPresent(f, before, after[i].row);
      EncodedIfPresent(f, adds, after[i].row);
    }
  }

  lemma LayersKept(keys: KeyExprs, nullSafe: bool, s: Store, dk: seq<DeltaRow>, bs: seq<P.DeltaRow>, overlay: P.Index)
    requires LayersOk(s.rowForm, s.flat, s.overlay) && Packs(keys, nullSafe, s, dk, bs)
    requires P.Integrated(s.overlay, bs, overlay)
    ensures LayersOk(s.rowForm, s.flat, overlay)
  {
    forall kb ensures AllEncoded(s.rowForm, P.At(overlay, kb)) {
      AddsEncoded(keys, nullSafe, s, dk, bs, kb);
      P.AtClean(overlay, kb);
      assert AllEncoded(s.rowForm, P.At(s.overlay, kb));
      MergedEncoded(s.rowForm, P.At(s.overlay, kb), P.Adds(bs, kb), P.At(overlay, kb));
    }
  }

  // Under every key the rows move by what the delta gives them.
  lemma LayersMoved(keys: KeyExprs, nullSafe: bool, s: Store, dk: seq<DeltaRow>, bs: seq<P.DeltaRow>, s': Store, k: Row, r: Row)
    requires LayersOk(s.rowForm, s.flat, s.overlay) && LayersOk(s'.rowForm, s'.flat, s'.overlay)
    requires Packs(keys, nullSafe, s, dk, bs) && P.Integrated(s.overlay, bs, s'.overlay)
    requires s' == s.(overlay := s'.overlay) && Codable(s.keyForm, k) && Codable(s.rowForm, r)
    ensures W(LayersAt(s', k), r) == W(LayersAt(s, k), r) + if EvalKey(keys, nullSafe, r) == Some(k) then Given(dk, r) else 0
  {
    LayersWeight(s, k, r);
    LayersWeight(s', k, r);
    AddsAre(keys, nullSafe, s, dk, bs, k, r);
    var kb, rb := Enc(s.keyForm, k), Enc(s.rowForm, r);
    assert B.Weight(P.At(s'.overlay, kb), rb) == B.Weight(P.At(s.overlay, kb), rb) + B.Weight(P.Adds(bs, kb), rb);
  }

  lemma PackedReads(keys: KeyExprs, nullSafe: bool, v: View, v': View, content: ZSet<Row>, dk: seq<DeltaRow>,
                    bs: seq<P.DeltaRow>, delta: ZSet<Row>, k: Row, r: Row)
    requires v.store.packed && v.proj.None? && v' == v.(store := v.store.(overlay := v'.store.overlay))
    requires LayersOk(v.store.rowForm, v.store.flat, v.store.overlay) && LayersOk(v'.store.rowForm, v'.store.flat, v'.store.overlay)
    requires ReadsAt(keys, nullSafe, v, content, k, r) && RowsFit(keys, nullSafe, v.store, delta) && Given(dk, r) == W(delta, r)
    requires Packs(keys, nullSafe, v.store, dk, bs) && P.Integrated(v.store.overlay, bs, v'.store.overlay)
    ensures ReadsAt(keys, nullSafe, v', Plus(content, delta), k, r)
  {
    if Codable(v.store.keyForm, k) {
      LayersWeight(v.store, k, r);
      LayersWeight(v'.store, k, r);
      if Codable(v.store.rowForm, r) {
        LayersMoved(keys, nullSafe, v.store, dk, bs, v'.store, k, r);
      }
    }
  }

  lemma PackedIndexed(keys: KeyExprs, nullSafe: bool, v: View, v': View, content: ZSet<Row>, dk: seq<DeltaRow>,
                      bs: seq<P.DeltaRow>, delta: ZSet<Row>)
    requires v.store.packed && v.proj.None? && v' == v.(store := v.store.(overlay := v'.store.overlay))
    requires Indexes(keys, nullSafe, v, content) && Materialized(keys, nullSafe, dk, delta)
    requires RowsFit(keys, nullSafe, v.store, delta)
    requires Packs(keys, nullSafe, v.store, dk, bs) && P.Integrated(v.store.overlay, bs, v'.store.overlay)
    ensures Indexes(keys, nullSafe, v', Plus(content, delta))
  {
    LayersKept(keys, nullSafe, v.store, dk, bs, v'.store.overlay);
    forall k, r ensures ReadsAt(keys, nullSafe, v', Plus(content, delta), k, r) {
      assert ReadsAt(keys, nullSafe, v, content, k, r);
      GivenIsWeight(keys, nullSafe, dk, delta, r);
      PackedReads(keys, nullSafe, v, v', content, dk, bs, delta, k, r);
    }
  }

  lemma PackedWeighed(keys: KeyExprs, nullSafe: bool, side: Side, side': Side, content: ZSet<Row>, dk: seq<DeltaRow>,
                      bs: seq<P.DeltaRow>, delta: ZSet<Row>)
    requires PackedHere(side) && PackedHere(side') && Weighs(side, content) && Materialized(keys, nullSafe, dk, delta)
    requires RowsFit(keys, nullSafe, side.view.store, delta) && Packs(keys, nullSafe, side.view.store, dk, bs)
    requires side'.flatTotals == side.flatTotals && side'.view.store.rowForm == side.view.store.rowForm
    requires P.Totalled(side.newTotals, bs, side'.newTotals)
    ensures Weighs(side', Plus(content, delta))
  {
    forall row ensures PackedTotal(side', row) == W(Plus(content, delta), row) {
      assert PackedTotal(side, row) == W(content, row);
      GivenIsWeight(keys, nullSafe, dk, delta, row);
      if Codable(side.view.store.rowForm, row) {
        RowTotalIs(keys, nullSafe, side.view.store, dk, bs, row);
      }
    }
  }

  method IntegrateLayers(keys: KeyExprs, nullSafe: bool, weighted: bool, side: Side, delta: ZSet<Row>, ghost content: ZSet<Row>)
    returns (r: Side)
    requires PackedHere(side) && side.view.proj.None? && Normal(delta) && RowsFit(keys, nullSafe, side.view.store, delta)
    requires Represents(keys, nullSafe, weighted, false, side, content) && Normal(side.newTotals)
    ensures r.view == side.view.(store := side.view.store.(overlay := r.view.store.overlay))
    ensures Normal(r.newTotals) && r.flatTotals == side.flatTotals
    ensures Represents(keys, nullSafe, weighted, false, r, Plus(content, delta))
  {
    var store := side.view.store;
    var dk := MaterializeKeys(keys, nullSafe, delta);
    assert forall i :: 0 <= i < |dk| ==> dk[i].row in delta;
    var bs := EncodeDelta(keys, nullSafe, store, dk);
    forall d | d in bs ensures d.w != 0 {
      var i :| 0 <= i < |bs| && bs[i] == d;
      assert dk[i].row in delta;
    }
    var overlay, totals := P.IntegratePacked(store.overlay, side.newTotals, bs, weighted);
    r := side.(view := side.view.(store := store.(overlay := overlay)), newTotals := totals);
    PackedIndexed(keys, nullSafe, side.view, r.view, content, dk, bs, delta);
    if weighted {
      PackedWeighed(keys, nullSafe, side, r, content, dk, bs, delta);
    }
  }

  // ---- a shared arrangement's packed overlay ----

  // An arrangement keeps the key of a bucket that cancelled out; for every
  // probe an empty bucket is an absent one.
  function Present(raw: P.Index): P.Index {
    map kb | kb in raw && raw[kb] != [] :: raw[kb]
  }

  lemma PresentAt(raw: P.Index, kb: Bytes)
    ensures P.At(Present(raw), kb) == P.At(raw, kb)
  {
  }

  lemma PresentPut(raw: P.Index, kb: Bytes, b: B.Bucket)
    ensures Present(raw[kb := b]) == P.Put(Present(raw), kb, b)
  {
  }

  method ApplyRow(ghost before: P.Index, ghost prefix: seq<P.DeltaRow>, d: P.DeltaRow, raw0: P.Index) returns (raw: P.Index)
    requires P.Integrated(before, prefix, Present(raw0)) && d.w != 0
    ensures P.Integrated(before, prefix + [d], Present(raw))
  {
    raw := raw0;
    if d.key.Some? {
      var kb := d.key.value;
      PresentAt(raw0, kb);
      P.AtClean(Present(raw0), kb);
      var bucket := B.MergeRow(P.At(raw0, kb), d.row, d.w);
      raw := raw0[kb := bucket];
      PresentPut(raw0, kb, bucket);
      P.PutIntegrates(Present(raw0), d, bucket);
    } else {
      P.KeylessIntegrates(Present(raw0), d);
    }
    P.IntegratedStep(before, prefix, d, Present(raw0), Present(raw));
  }

  method ApplyRows(raw0: P.Index, bs: seq<P.DeltaRow>) returns (raw: P.Index)
    requires P.CleanIndex(Present(raw0)) && forall d :: d in bs ==> d.w != 0
    ensures P.Integrated(Present(raw0), bs, Present(raw))
  {
    raw := raw0;
    P.IntegratedNone(Present(raw0));
    assert bs[..0] == [];
    for i := 0 to |bs|
      invariant P.Integrated(Present(raw0), bs[..i], Present(raw))
    {
      assert bs[i] in bs && bs[..i + 1] == bs[..i] + [bs[i]];
      raw := ApplyRow(Present(raw0), bs[..i], bs[i], raw);
    }
    assert bs[..|bs|] == bs;
  }

  method ApplyLayers(keys: KeyExprs, nullSafe: bool, weighted: bool, side: Side, raw0: P.Index, delta: ZSet<Row>,
                     ghost content: ZSet<Row>) returns (r: Side, raw: P.Index)
    requires side.view.shared && side.view.store.packed && side.view.proj.None? && side.view.store.overlay == Present(raw0)
    requires Normal(delta) && RowsFit(keys, nullSafe, side.view.store, delta)
    requires Represents(keys, nullSafe, weighted, false, side, content)
    ensures r.view == side.view.(store := side.view.store.(overlay := Present(raw)))
    ensures Represents(keys, nullSafe, weighted, false, r, Plus(content, delta))
  {
    var store := side.view.store;
    var dk := MaterializeKeys(keys, nullSafe, delta);
    assert forall i :: 0 <= i < |dk| ==> dk[i].row in delta;
    var bs := EncodeDelta(keys, nullSafe, store, dk);
    forall d | d in bs ensures d.w != 0 {
      var i :| 0 <= i < |bs| && bs[i] == d;
      assert dk[i].row in delta;
    }
    raw := ApplyRows(raw0, bs);
    r := side.(view := side.view.(store := store.(overlay := Present(raw))),
               weights := if weighted then Plus(side.weights, delta) else side.weights);
    PackedIndexed(keys, nullSafe, side.view, r.view, content, dk, bs, delta);
  }

  function NewShared(packed: bool, keyForm: Form, rowForm: Form): Side {
    NewSide(packed, keyForm, rowForm).(view := View(true, NewStore(packed, keyForm, rowForm), None))
  }

  lemma NewSharedRepresents(keys: KeyExprs, nullSafe: bool, weighted: bool, counted: bool, packed: bool, keyForm: Form, rowForm: Form)
    ensures Represents(keys, nullSafe, weighted, counted, NewShared(packed, keyForm, rowForm), map[])
    ensures Present(map[]) == map[]
  {
    EmptyRepresents(keys, nullSafe, weighted, counted, packed, keyForm, rowForm);
    forall k, r ensures ReadsAt(keys, nullSafe, NewShared(packed, keyForm, rowForm).view, map[], k, r) {
      assert ReadsAt(keys, nullSafe, NewSide(packed, keyForm, rowForm).view, map[], k, r);
    }
  }

  // ---- a side seen through a consumer's projection ----

  ghost function Shown(proj: Option<seq<nat>>, z: ZSet<Row>): ZSet<Row> {
    if proj.Some? then ProjectZ(proj.value, z) else z
  }

  lemma ShownNormal(proj: Option<seq<nat>>, z: ZSet<Row>)
    requires Normal(z)
    ensures Normal(Shown(proj, z))
  {
  }

  // The arrangement's key expressions, over full rows, are the consumer's
  // over its columns.
  ghost predicate KeyedThrough(arrKeys: KeyExprs, proj: Option<seq<nat>>, keys: KeyExprs) {
    if proj.None? then arrKeys == keys
    else |arrKeys| == |keys| && forall i, row: Row {:trigger arrKeys[i](row)} ::
           0 <= i < |keys| ==> arrKeys[i](row) == keys[i](Project(proj.value, row))
  }

  lemma KeyThrough(arrKeys: KeyExprs, proj: seq<nat>, keys: KeyExprs, nullSafe: bool, row: Row)
    requires KeyedThrough(arrKeys, Some(proj), keys)
    ensures EvalKey(arrKeys, nullSafe, row) == EvalKey(keys, nullSafe, Project(proj, row))
  {
    assert KeyValues(arrKeys, row) == KeyValues(keys, Project(proj, row));
  }

  // The rows under one key, by the consumer's columns.
  lemma ShownBucket(arrKeys: KeyExprs, proj: seq<nat>, keys: KeyExprs, nullSafe: bool, rows: ZSet<Row>, content: ZSet<Row>,
                    k: Row, r: Row)
    requires KeyedThrough(arrKeys, Some(proj), keys)
    requires forall x {:trigger W(rows, x)} :: W(rows, x) == if EvalKey(arrKeys, nullSafe, x) == Some(k) then W(content, x) else 0
    ensures Mass(rows, Onto(proj, r)) == if EvalKey(keys, nullSafe, r) == Some(k) then Mass(content, Onto(proj, r)) else 0
  {
    var keyed := EvalKey(keys, nullSafe, r) == Some(k);
    forall x | Onto(proj, r)(x) ensures W(rows, x) == if keyed then W(content, x) else 0 {
      KeyThrough(arrKeys, proj, keys, nullSafe, x);
    }
    if keyed {
      MassAgrees(rows, content, Onto(proj, r));
    } else {
      MassAgrees(rows, map[], Onto(proj, r));
      MassNowhere(map[], Onto(proj, r));
    }
  }

  lemma ShownAt(arrKeys: KeyExprs, proj: seq<nat>, keys: KeyExprs, nullSafe: bool, rows: ZSet<Row>, content: ZSet<Row>,
                k: Row, r: Row)
    requires KeyedThrough(arrKeys, Some(proj), keys)
    requires forall x {:trigger W(rows, x)} :: W(rows, x) == if EvalKey(arrKeys, nullSafe, x) == Some(k) then W(content, x) else 0
    ensures W(ProjectZ(proj, rows), r) == if EvalKey(keys, nullSafe, r) == Some(k) then W(ProjectZ(proj, content), r) else 0
  {
    ShownBucket(arrKeys, proj, keys, nullSafe, rows, content, k, r);
  }

  lemma ShownReads(arrKeys: KeyExprs, proj: seq<nat>, keys: KeyExprs, nullSafe: bool, v: View, v': View, content: ZSet<Row>,
                   k: Row, r: Row)
    requires KeyedThrough(arrKeys, Some(proj), keys) && v.shared && v.proj.None? && v' == v.(proj := Some(proj))
    requires Indexes(arrKeys, nullSafe, v, content)
    ensures ReadsAt(keys, nullSafe, v', ProjectZ(proj, content), k, r)
  {
    ghost var rows := Read(v, k);
    assert Read(v', k) == ProjectZ(proj, rows);
    ShownAt(arrKeys, proj, keys, nullSafe, rows, content, k, r);
  }

  lemma ShownIndexes(arrKeys: KeyExprs, proj: seq<nat>, keys: KeyExprs, nullSafe: bool, v: View, v': View, content: ZSet<Row>)
    requires KeyedThrough(arrKeys, Some(proj), keys) && v.shared && v.proj.None? && v' == v.(proj := Some(proj))
    requires Indexes(arrKeys, nullSafe, v, content)
    ensures Indexes(keys, nullSafe, v', ProjectZ(proj, content))
  {
    forall k, r ensures ReadsAt(keys, nullSafe, v', ProjectZ(proj, content), k, r) {
      ShownReads(arrKeys, proj, keys, nullSafe, v, v', content, k, r);
    }
  }

  // Collapsing rows keeps every sum that depends on the kept columns only.
  lemma {:induction false} MassShown(proj: seq<nat>, z: ZSet<Row>, p: Row -> bool, q: Row -> bool)
    requires Normal(z) && forall x {:trigger q(x)} :: q(x) == p(Project(proj, x))
    ensures Mass(ProjectZ(proj, z), p) == Mass(z, q)
    decreases |z|
  {
    if z == map[] {
      ProjectedNothing(proj);
      MassNowhere(map[], p);
      MassNowhere(map[], q);
    } else {
      var x :| x in z;
      MassShown(proj, z - {x}, p, q);
      MassShownStep(proj, z, z - {x}, x, p, q);
    }
  }

  lemma MassShownStep(proj: seq<nat>, z: ZSet<Row>, rest: ZSet<Row>, x: Row, p: Row -> bool, q: Row -> bool)
    requires Normal(z) && x in z && rest == z - {x} && q(x) == p(Project(proj, x))
    requires Mass(ProjectZ(proj, rest), p) == Mass(rest, q)
    ensures Mass(ProjectZ(proj, z), p) == Mass(z, q)
  {
    assert Insert(rest, x, z[x]) == z;
    MassInsert(rest, x, z[x], q);
    MassInsert(ProjectZ(proj, rest), Project(proj, x), z[x], p);
    ProjectInsert(proj, rest, x, z[x]);
  }

  lemma ProjectInsert(proj: seq<nat>, z: ZSet<Row>, x: Row, w: int)
    ensures ProjectZ(proj, Insert(z, x, w)) == Insert(ProjectZ(proj, z), Project(proj, x), w)
  {
    forall y ensures W(ProjectZ(proj, Insert(z, x, w)), y) == W(Insert(ProjectZ(proj, z), Project(proj, x), w), y) {
      MassInsert(z, x, w, Onto(proj, y));
    }
    Extensional(ProjectZ(proj, Insert(z, x, w)), Insert(ProjectZ(proj, z), Project(proj, x), w));
  }

  lemma ShownCounts(arrKeys: KeyExprs, proj: seq<nat>, keys: KeyExprs, nullSafe: bool, content: ZSet<Row>)
    requires KeyedThrough(arrKeys, Some(proj), keys) && Normal(content)
    ensures RowMass(ProjectZ(proj, content)) == RowMass(content)
    ensures NullMass(keys, nullSafe, ProjectZ(proj, content)) == NullMass(arrKeys, nullSafe, content)
  {
    MassShown(proj, content, _ => true, _ => true);
    forall x ensures EvalKey(arrKeys, nullSafe, x).None? == EvalKey(keys, nullSafe, Project(proj, x)).None? {
      KeyThrough(arrKeys, proj, keys, nullSafe, x);
    }
    MassShown(proj, content, r => EvalKey(keys, nullSafe, r).None?, r => EvalKey(arrKeys, nullSafe, r).None?);
  }

  // The arrangement's side as one consumer sees it.
  function ThroughProjection(side: Side, proj: Option<seq<nat>>): Side {
    side.(view := side.view.(proj := proj))
  }

  lemma ShownRepresents(arrKeys: KeyExprs, proj: Option<seq<nat>>, keys: KeyExprs, nullSafe: bool, weighted: bool, counted: bool,
                        side: Side, content: ZSet<Row>)
    requires KeyedThrough(arrKeys, proj, keys) && side.view.shared && side.view.proj.None?
    requires Represents(arrKeys, nullSafe, weighted, counted, side, content) && (weighted ==> proj.None?)
    ensures Represents(keys, nullSafe, weighted, counted, ThroughProjection(side, proj), Shown(proj, content))
  {
    if proj.Some? {
      ShownIndexes(arrKeys, proj.value, keys, nullSafe, side.view, ThroughProjection(side, proj).view, content);
      ShownCounts(arrKeys, proj.value, keys, nullSafe, content);
    }
  }
}
