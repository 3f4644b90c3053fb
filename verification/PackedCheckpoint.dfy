// The packed state of a join node through its blob: both layers folded into
// one stream, and the stream read back as the immutable layer
// (include/dbsp_plan_join.hpp).
module PackedBlobs {
  import opened ZSets
  import opened Rows
  import opened Buckets
  import PackedIntegrate
  import opened FlatPacked
  import opened FlatBuild
  import opened ByteStrings
  import opened BlobFormat
  import opened BlobMaps

  // ---- buckets as blob entries ----

  function EntriesOf(b: Bucket): (es: Entries)
    ensures |es| == |b|
    ensures forall i :: 0 <= i < |b| ==> es[i] == (b[i].row, b[i].weight)
  {
    seq(|b|, i requires 0 <= i < |b| => (b[i].row, b[i].weight))
  }

  function BucketFrom(es: Entries): (b: Bucket)
    ensures |b| == |es|
    ensures forall i :: 0 <= i < |es| ==> b[i] == Entry(es[i].0, es[i].1)
  {
    seq(|es|, i requires 0 <= i < |es| => Entry(es[i].0, es[i].1))
  }

  lemma ThereAndBack(b: Bucket)
    ensures BucketFrom(EntriesOf(b)) == b
  {
  }

  // A key with its merged bucket.
  type Item = (Bytes, Bucket)

  // The groups a list of merged buckets is written as: the empty ones are
  // left out.
  function Live(items: seq<Item>): Groups {
    if items == [] then []
    else
      var x := items[|items| - 1];
      if x.1 == [] then Live(items[..|items| - 1])
      else Live(items[..|items| - 1]) + [(x.0, EntriesOf(x.1))]
  }

  lemma LivePush(items: seq<Item>, x: Item)
    ensures Live(items + [x]) == if x.1 == [] then Live(items) else Live(items) + [(x.0, EntriesOf(x.1))]
  {
    assert (items + [x])[..|items|] == items;
  }

  lemma {:induction false} LiveConcat(a: seq<Item>, b: seq<Item>)
    ensures Live(a + b) == Live(a) + Live(b)
  {
    if b == [] {
      assert a + b == a;
    } else {
      LiveConcat(a, b[..|b| - 1]);
      assert a + b == a + b[..|b| - 1] + [b[|b| - 1]];
      LivePush(a + b[..|b| - 1], b[|b| - 1]);
    }
  }

  // ---- the first pass: merge and count ----

  method CountLive(items: seq<Item>) returns (live: nat)
    ensures live == |Live(items)|
  {
    live := 0;
    for i := 0 to |items|
      invariant live == |Live(items[..i])|
    {
      assert items[..i + 1] == items[..i] + [items[i]];
      LivePush(items[..i], items[i]);
      if items[i].1 != [] {
        live := live + 1;
      }
    }
    assert items[..|items|] == items;
  }

  // ---- the second pass: write ----

  method WriteEntry(w: BlobWriter, e: Entry)
    modifies w
    ensures w.bytes == old(w.bytes) + EntryBytes((e.row, e.weight))
  {
    w.PutBytes(e.row);
    w.PutI64(e.weight);
  }

  method WriteBucketEntries(w: BlobWriter, b: Bucket)
    modifies w
    ensures w.bytes == old(w.bytes) + WeightsBlob(EntriesOf(b))
  {
    ghost var before, es := w.bytes, EntriesOf(b);
    w.PutU64(|b|);
    ghost var start := w.bytes;
    for i := 0 to |b|
      invariant w.bytes == start + ConcatMap(es[..i], EntryBytes)
    {
      ConcatMapNext(es, i, EntryBytes);
      Associative(start, ConcatMap(es[..i], EntryBytes), EntryBytes(es[i]));
      WriteEntry(w, b[i]);
    }
    assert es[..|b|] == es;
    Associative(before, U64(|b|), ConcatMap(es, EntryBytes));
  }

  method WriteItem(w: BlobWriter, x: Item)
    modifies w
    ensures w.bytes == old(w.bytes) + BucketBytes((x.0, EntriesOf(x.1)))
  {
    w.PutBytes(x.0);
    WriteBucketEntries(w, x.1);
  }

  function LiveBytes(x: Item): Bytes {
    if x.1 == [] then [] else BucketBytes((x.0, EntriesOf(x.1)))
  }

  lemma LiveBytesPush(items: seq<Item>, x: Item)
    ensures ConcatMap(Live(items + [x]), BucketBytes) == ConcatMap(Live(items), BucketBytes) + LiveBytes(x)
  {
    LivePush(items, x);
    if x.1 != [] {
      ConcatMapPush(Live(items), BucketBytes, (x.0, EntriesOf(x.1)));
    }
  }

  method WriteIfLive(w: BlobWriter, x: Item)
    modifies w
    ensures w.bytes == old(w.bytes) + LiveBytes(x)
  {
    if x.1 != [] {
      WriteItem(w, x);
    }
  }

  method WriteLive(w: BlobWriter, items: seq<Item>)
    modifies w
    ensures w.bytes == old(w.bytes) + ConcatMap(Live(items), BucketBytes)
  {
    ghost var start := w.bytes;
    for i := 0 to |items|
      invariant w.bytes == start + ConcatMap(Live(items[..i]), BucketBytes)
    {
      assert items[..i + 1] == items[..i] + [items[i]];
      LiveBytesPush(items[..i], items[i]);
      Associative(start, ConcatMap(Live(items[..i]), BucketBytes), LiveBytes(items[i]));
      WriteIfLive(w, items[i]);
    }
    assert items[..|items|] == items;
  }

  // ---- what the items of an index are ----

  // Every key once, under it the clean merged bucket.
  ghost predicate Itemized(f: Flat, idx: PackedIntegrate.Index, keys: set<Bytes>, items: seq<Item>)
    requires InBounds(f)
  {
    && (forall i, j :: 0 <= i < j < |items| ==> items[i].0 != items[j].0)
    && (forall k :: k in keys <==> exists i :: 0 <= i < |items| && items[i].0 == k)
    && (forall i :: 0 <= i < |items| ==> Clean(items[i].1))
    && forall i, row {:trigger Weight(items[i].1, row)} ::
         0 <= i < |items| ==> Weight(items[i].1, row) == Both(f, idx, items[i].0, row)
  }

  lemma ItemizedPush(f: Flat, idx: PackedIntegrate.Index, keys: set<Bytes>, items: seq<Item>, k: Bytes, b: Bucket)
    requires InBounds(f) && Itemized(f, idx, keys, items) && k !in keys && Clean(b)
    requires forall row :: Weight(b, row) == Both(f, idx, k, row)
    ensures Itemized(f, idx, keys + {k}, items + [(k, b)])
  {
    var items' := items + [(k, b)];
    forall x ensures x in keys + {k} <==> exists i :: 0 <= i < |items'| && items'[i].0 == x {
      if x in keys {
        var i :| 0 <= i < |items| && items[i].0 == x;
        assert items'[i].0 == x;
      } else if x == k {
        assert items'[|items|].0 == x;
      }
    }
    assert forall i :: 0 <= i < |items| ==> items[i].0 in keys;
  }

  // One directory entry with what the overlay adds to it: the flat bucket as
  // it is when the overlay has none.
  method MergedAt(f: Flat, idx: PackedIntegrate.Index, i: nat) returns (b: Bucket)
    requires FlatOk(f) && i < |f.dir|
    ensures Clean(b) && forall row {:trigger Weight(b, row)} :: Weight(b, row) == Both(f, idx, Key(f, f.dir[i]), row)
  {
    var kb := Key(f, f.dir[i]);
    LookupAt(f, i);
    if kb !in idx {
      return BucketOf(f, f.dir[i]);
    }
    var m := SumRows(map[], BucketOf(f, f.dir[i]));
    m := SumRows(m, idx[kb]);
    b := EmitRows(m);
  }

  method MergeFlat(f: Flat, idx: PackedIntegrate.Index) returns (items: seq<Item>)
    requires FlatOk(f)
    ensures Itemized(f, idx, DirKeys(f), items)
  {
    items := [];
    ghost var keys: set<Bytes> := {};
    for i := 0 to |f.dir|
      invariant keys == set j | 0 <= j < i :: Key(f, f.dir[j])
      invariant Itemized(f, idx, keys, items)
    {
      var b := MergedAt(f, idx, i);
      assert Key(f, f.dir[i]) !in keys;
      ItemizedPush(f, idx, keys, items, Key(f, f.dir[i]), b);
      items := items + [(Key(f, f.dir[i]), b)];
      keys := keys + {Key(f, f.dir[i])};
    }
  }

  ghost function OverlayOnly(f: Flat, idx: PackedIntegrate.Index): set<Bytes>
    requires InBounds(f)
  {
    set k | k in idx && k !in DirKeys(f)
  }

  lemma OverlayAlone(f: Flat, idx: PackedIntegrate.Index, k: Bytes)
    requires FlatOk(f) && PackedIntegrate.CleanIndex(idx) && k in idx && k !in DirKeys(f)
    ensures Clean(idx[k]) && forall row :: Weight(idx[k], row) == Both(f, idx, k, row)
  {
    assert forall i :: 0 <= i < |f.dir| ==> Key(f, f.dir[i]) in DirKeys(f);
    assert Lookup(f, k) == [];
  }

  method TakeOverlay(f: Flat, idx: PackedIntegrate.Index) returns (items: seq<Item>)
    requires FlatOk(f) && PackedIntegrate.CleanIndex(idx)
    ensures Itemized(f, idx, OverlayOnly(f, idx), items)
  {
    items := [];
    var todo := idx.Keys;
    ghost var keys: set<Bytes> := {};
    while todo != {}
      invariant todo <= idx.Keys && keys == (set k | k in idx && k !in DirKeys(f) && k !in todo)
      invariant Itemized(f, idx, keys, items)
      decreases todo
    {
      var kb :| kb in todo;
      var fe := Find(f, kb);
      InDirectory(f, kb, fe);
      if fe.None? {
        OverlayAlone(f, idx, kb);
        ItemizedPush(f, idx, keys, items, kb, idx[kb]);
        items := items + [(kb, idx[kb])];
        keys := keys + {kb};
      }
      todo := todo - {kb};
    }
    assert keys == OverlayOnly(f, idx);
  }

  // ---- what the written groups mean ----

  // Every key once, under it a non-empty clean bucket.
  ghost predicate GroupsOk(gs: Groups) {
    && (forall i, j :: 0 <= i < j < |gs| ==> gs[i].0 != gs[j].0)
    && forall i :: 0 <= i < |gs| ==> gs[i].1 != [] && Clean(BucketFrom(gs[i].1))
  }

  // The bucket listed under a key.
  function Listed(gs: Groups, k: Bytes): Bucket {
    if gs == [] then []
    else if gs[|gs| - 1].0 == k then BucketFrom(gs[|gs| - 1].1)
    else Listed(gs[..|gs| - 1], k)
  }

  lemma {:induction false} ListedAt(gs: Groups, i: nat)
    requires i < |gs| && forall i, j :: 0 <= i < j < |gs| ==> gs[i].0 != gs[j].0
    ensures Listed(gs, gs[i].0) == BucketFrom(gs[i].1)
  {
    if i < |gs| - 1 {
      ListedAt(gs[..|gs| - 1], i);
    }
  }

  lemma {:induction false} NotListed(gs: Groups, k: Bytes)
    requires forall i :: 0 <= i < |gs| ==> gs[i].0 != k
    ensures Listed(gs, k) == []
  {
    if gs != [] {
      NotListed(gs[..|gs| - 1], k);
    }
  }

  // The groups are exactly the content of both layers.
  ghost predicate Carries(gs: Groups, f: Flat, idx: PackedIntegrate.Index)
    requires InBounds(f)
  {
    && GroupsOk(gs)
    && forall k, row {:trigger Weight(Listed(gs, k), row)} :: Weight(Listed(gs, k), row) == Both(f, idx, k, row)
  }

  lemma {:induction false} LiveFrom(items: seq<Item>, i: nat)
    requires i < |Live(items)|
    ensures exists j :: 0 <= j < |items| && items[j].1 != [] && Live(items)[i] == (items[j].0, EntriesOf(items[j].1))
  {
    var n := |items| - 1;
    var x := items[n];
    if i < |Live(items[..n])| {
      LiveFrom(items[..n], i);
      var j :| 0 <= j < n && items[..n][j].1 != [] && Live(items[..n])[i] == (items[..n][j].0, EntriesOf(items[..n][j].1));
      assert items[j] == items[..n][j];
    }
  }

  ghost predicate DistinctKeys(items: seq<Item>) {
    forall i, j :: 0 <= i < j < |items| ==> items[i].0 != items[j].0
  }

  lemma {:induction false} LiveDistinct(items: seq<Item>)
    requires DistinctKeys(items)
    ensures forall i, j :: 0 <= i < j < |Live(items)| ==> Live(items)[i].0 != Live(items)[j].0
  {
    if items != [] {
      var n := |items| - 1;
      LiveDistinct(items[..n]);
      forall i | 0 <= i < |Live(items[..n])| ensures Live(items[..n])[i].0 != items[n].0 {
        LiveFrom(items[..n], i);
        var j :| 0 <= j < n && Live(items[..n])[i].0 == items[..n][j].0;
        assert items[j].0 != items[n].0;
      }
    }
  }

  lemma {:induction false} LiveListed(items: seq<Item>, j: nat)
    requires DistinctKeys(items) && j < |items|
    ensures Listed(Live(items), items[j].0) == items[j].1
  {
    var n := |items| - 1;
    ThereAndBack(items[n].1);
    if j < n {
      LiveListed(items[..n], j);
    } else if items[n].1 == [] {
      forall i | 0 <= i < |Live(items)| ensures Live(items)[i].0 != items[j].0 {
        LiveFrom(items[..n], i);
        var k :| 0 <= k < n && Live(items[..n])[i].0 == items[..n][k].0;
        assert items[k].0 != items[n].0;
      }
      NotListed(Live(items), items[j].0);
    } else {
      assert (Live(items[..n]) + [(items[n].0, EntriesOf(items[n].1))])[..|Live(items[..n])|] == Live(items[..n]);
    }
  }

  lemma LiveOk(items: seq<Item>)
    requires DistinctKeys(items) && forall i :: 0 <= i < |items| ==> Clean(items[i].1)
    ensures GroupsOk(Live(items))
  {
    LiveDistinct(items);
    forall i | 0 <= i < |Live(items)| ensures Live(items)[i].1 != [] && Clean(BucketFrom(Live(items)[i].1)) {
      LiveFrom(items, i);
      var j :| 0 <= j < |items| && items[j].1 != [] && Live(items)[i] == (items[j].0, EntriesOf(items[j].1));
      ThereAndBack(items[j].1);
    }
  }

  lemma LiveAbsent(items: seq<Item>, k: Bytes)
    requires forall j :: 0 <= j < |items| ==> items[j].0 != k
    ensures Listed(Live(items), k) == []
  {
    forall i | 0 <= i < |Live(items)| ensures Live(items)[i].0 != k {
      LiveFrom(items, i);
    }
    NotListed(Live(items), k);
  }

  lemma LiveCarries(f: Flat, idx: PackedIntegrate.Index, keys: set<Bytes>, items: seq<Item>)
    requires FlatOk(f) && Itemized(f, idx, keys, items)
    requires forall k :: k !in keys ==> Lookup(f, k) == [] && PackedIntegrate.At(idx, k) == []
    ensures Carries(Live(items), f, idx)
  {
    LiveOk(items);
    forall k, row ensures Weight(Listed(Live(items), k), row) == Both(f, idx, k, row) {
      if k in keys {
        var j :| 0 <= j < |items| && items[j].0 == k;
        LiveListed(items, j);
        assert Weight(items[j].1, row) == Both(f, idx, items[j].0, row);
      } else {
        LiveAbsent(items, k);
      }
    }
  }

  lemma ItemizedBoth(f: Flat, idx: PackedIntegrate.Index, a: seq<Item>, b: seq<Item>)
    requires FlatOk(f) && Itemized(f, idx, DirKeys(f), a) && Itemized(f, idx, OverlayOnly(f, idx), b)
    ensures Itemized(f, idx, DirKeys(f) + OverlayOnly(f, idx), a + b)
  {
    var keys := DirKeys(f) + OverlayOnly(f, idx);
    forall k ensures k in keys <==> exists i :: 0 <= i < |a + b| && (a + b)[i].0 == k {
      if k in DirKeys(f) {
        var i :| 0 <= i < |a| && a[i].0 == k;
        assert (a + b)[i].0 == k;
      } else if k in OverlayOnly(f, idx) {
        var i :| 0 <= i < |b| && b[i].0 == k;
        assert (a + b)[|a| + i].0 == k;
      }
    }
    forall i | 0 <= i < |a| ensures a[i].0 in DirKeys(f) {}
    forall i | 0 <= i < |b| ensures b[i].0 in OverlayOnly(f, idx) {}
  }

  lemma AllKeys(f: Flat, idx: PackedIntegrate.Index, k: Bytes)
    requires FlatOk(f) && k !in DirKeys(f) + OverlayOnly(f, idx)
    ensures Lookup(f, k) == [] && PackedIntegrate.At(idx, k) == []
  {
    assert forall i :: 0 <= i < |f.dir| ==> Key(f, f.dir[i]) in DirKeys(f);
  }

  // ---- write_pindex ----

  // Writing lists of items one after the other writes their groups' blob.
  method WriteGroups(w: BlobWriter, merged: seq<Item>, overlay: seq<Item>)
    modifies w
    ensures w.bytes == old(w.bytes) + IndexBlob(Live(merged + overlay))
  {
    ghost var before := w.bytes;
    var live := CountLive(merged);
    var more := CountLive(overlay);
    w.PutU64(live + more);
    WriteLive(w, merged);
    WriteLive(w, overlay);
    GroupsWritten(before, merged, overlay, live + more, w.bytes);
  }

  lemma GroupsWritten(before: Bytes, merged: seq<Item>, overlay: seq<Item>, n: nat, written: Bytes)
    requires n == |Live(merged)| + |Live(overlay)|
    requires written == before + U64(n) + ConcatMap(Live(merged), BucketBytes) + ConcatMap(Live(overlay), BucketBytes)
    ensures written == before + IndexBlob(Live(merged + overlay))
  {
    LiveConcat(merged, overlay);
    ConcatMapSplit(Live(merged), Live(overlay), BucketBytes);
    Associative(before + U64(n), ConcatMap(Live(merged), BucketBytes), ConcatMap(Live(overlay), BucketBytes));
    Associative(before, U64(n), ConcatMap(Live(merged + overlay), BucketBytes));
  }

  method WritePackedIndex(w: BlobWriter, f: Flat, idx: PackedIntegrate.Index) returns (ghost gs: Groups)
    requires FlatOk(f) && PackedIntegrate.CleanIndex(idx)
    modifies w
    ensures Carries(gs, f, idx) && w.bytes == old(w.bytes) + IndexBlob(gs)
  {
    var merged := MergeFlat(f, idx);
    var overlay := TakeOverlay(f, idx);
    ItemizedBoth(f, idx, merged, overlay);
    forall k | k !in DirKeys(f) + OverlayOnly(f, idx) ensures Lookup(f, k) == [] && PackedIntegrate.At(idx, k) == [] {
      AllKeys(f, idx, k);
    }
    LiveCarries(f, idx, DirKeys(f) + OverlayOnly(f, idx), merged + overlay);
    gs := Live(merged + overlay);
    WriteGroups(w, merged, overlay);
  }
}

// The row totals of a packed side through its blob.
module PackedTotals {
  import opened ZSets
  import opened Rows
  import opened Buckets
  import opened FlatPacked
  import opened FlatBuild
  import opened Sorting
  import opened BlobFormat
  import opened BlobMaps
  import opened PackedBlobs
  import opened FlatTotals

  // ---- write_pweights ----

  // Rows of `rows`, each once, with their totals (0 allowed).
  ghost predicate Summed(ws: Bucket, wm: ZSet<Bytes>, rows: set<Bytes>, sums: Bucket) {
    && (forall i, j :: 0 <= i < j < |sums| ==> sums[i].row != sums[j].row)
    && (forall i :: 0 <= i < |sums| ==> sums[i].row in rows)
    && forall row {:trigger Weight(sums, row)} :: Weight(sums, row) == if row in rows then BothTotals(ws, wm, row) else 0
  }

  lemma SummedPush(ws: Bucket, wm: ZSet<Bytes>, rows: set<Bytes>, sums: Bucket, row: Bytes)
    requires Summed(ws, wm, rows, sums) && row !in rows
    ensures Summed(ws, wm, rows + {row}, sums + [Entry(row, BothTotals(ws, wm, row))])
  {
    var e := Entry(row, BothTotals(ws, wm, row));
    forall r ensures Weight(sums + [e], r) == if r in rows + {row} then BothTotals(ws, wm, r) else 0 {
      WeightPush(sums, e, r);
    }
  }

  ghost function RowsOf(b: Bucket): set<Bytes> {
    set i | 0 <= i < |b| :: b[i].row
  }

  method SumFlat(ws: Bucket, wm: ZSet<Bytes>) returns (sums: Bucket)
    requires TotalsOk(ws)
    ensures Summed(ws, wm, RowsOf(ws), sums)
  {
    sums := [];
    ghost var rows: set<Bytes> := {};
    TotalsClean(ws);
    for i := 0 to |ws|
      invariant rows == set j | 0 <= j < i :: ws[j].row
      invariant Summed(ws, wm, rows, sums)
    {
      WeightPresent(ws, i);
      SummedPush(ws, wm, rows, sums, ws[i].row);
      sums := sums + [Entry(ws[i].row, ws[i].weight + W(wm, ws[i].row))];
      rows := rows + {ws[i].row};
    }
  }

  // Rows of the overlay the sorted list does not have.
  method SumOverlay(ws: Bucket, wm: ZSet<Bytes>, ghost rows0: set<Bytes>, sums0: Bucket) returns (sums: Bucket, ghost rows: set<Bytes>)
    requires TotalsOk(ws) && rows0 == RowsOf(ws) && Summed(ws, wm, rows0, sums0)
    ensures Summed(ws, wm, rows, sums) && rows == RowsOf(ws) + wm.Keys
  {
    sums, rows := sums0, rows0;
    TotalsClean(ws);
    var todo := wm.Keys;
    while todo != {}
      invariant todo <= wm.Keys && rows == RowsOf(ws) + (wm.Keys - todo)
      invariant Summed(ws, wm, rows, sums)
      decreases todo
    {
      var rb :| rb in todo;
      var w := FindTotal(ws, rb);
      WeightDecides(ws, rb);
      if w == 0 {
        assert rb !in rows;
        SummedPush(ws, wm, rows, sums, rb);
        sums := sums + [Entry(rb, wm[rb])];
      }
      rows := rows + {rb};
      todo := todo - {rb};
    }
  }

  // The entries are exactly the non-zero totals of both layers.
  ghost predicate CarriesTotals(es: Entries, ws: Bucket, wm: ZSet<Bytes>) {
    && Clean(BucketFrom(es))
    && forall row {:trigger Weight(BucketFrom(es), row)} :: Weight(BucketFrom(es), row) == BothTotals(ws, wm, row)
  }

  lemma SumsCarry(ws: Bucket, wm: ZSet<Bytes>, rows: set<Bytes>, sums: Bucket)
    requires Summed(ws, wm, rows, sums) && rows == RowsOf(ws) + wm.Keys
    ensures CarriesTotals(EntriesOf(Nonzero(sums)), ws, wm)
  {
    ThereAndBack(Nonzero(sums));
    NonzeroKeeps(sums);
    forall row ensures Weight(Nonzero(sums), row) == BothTotals(ws, wm, row) {
      NonzeroWeight(sums, row);
      if row !in rows {
        assert forall i :: 0 <= i < |ws| ==> ws[i].row in RowsOf(ws);
        WeightAbsent(ws, row);
      }
    }
  }

  method CountNonzero(b: Bucket) returns (live: nat)
    ensures live == |Nonzero(b)|
  {
    live := 0;
    for i := 0 to |b|
      invariant live == |Nonzero(b[..i])|
    {
      assert b[..i + 1][..i] == b[..i];
      if b[i].weight != 0 {
        live := live + 1;
      }
    }
    assert b[..|b|] == b;
  }

  lemma NonzeroPush(b: Bucket, e: Entry)
    ensures EntriesOf(Nonzero(b + [e]))
         == EntriesOf(Nonzero(b)) + if e.weight != 0 then [(e.row, e.weight)] else []
  {
    assert (b + [e])[..|b|] == b;
  }

  function NonzeroBytes(e: Entry): Bytes {
    if e.weight != 0 then EntryBytes((e.row, e.weight)) else []
  }

  lemma NonzeroBytesPush(b: Bucket, e: Entry)
    ensures ConcatMap(EntriesOf(Nonzero(b + [e])), EntryBytes) == ConcatMap(EntriesOf(Nonzero(b)), EntryBytes) + NonzeroBytes(e)
  {
    NonzeroPush(b, e);
    if e.weight != 0 {
      ConcatMapPush(EntriesOf(Nonzero(b)), EntryBytes, (e.row, e.weight));
    } else {
      assert EntriesOf(Nonzero(b)) + [] == EntriesOf(Nonzero(b));
    }
  }

  method WriteIfNonzero(w: BlobWriter, e: Entry)
    modifies w
    ensures w.bytes == old(w.bytes) + NonzeroBytes(e)
  {
    if e.weight != 0 {
      WriteEntry(w, e);
    }
  }

  method WriteNonzero(w: BlobWriter, b: Bucket)
    modifies w
    ensures w.bytes == old(w.bytes) + ConcatMap(EntriesOf(Nonzero(b)), EntryBytes)
  {
    ghost var start := w.bytes;
    for i := 0 to |b|
      invariant w.bytes == start + ConcatMap(EntriesOf(Nonzero(b[..i])), EntryBytes)
    {
      NonzeroNext(start, b, i);
      WriteIfNonzero(w, b[i]);
    }
    assert b[..|b|] == b;
  }

  lemma NonzeroNext(start: Bytes, b: Bucket, i: nat)
    requires i < |b|
    ensures start + ConcatMap(EntriesOf(Nonzero(b[..i + 1])), EntryBytes)
         == start + ConcatMap(EntriesOf(Nonzero(b[..i])), EntryBytes) + NonzeroBytes(b[i])
  {
    assert b[..i + 1] == b[..i] + [b[i]];
    NonzeroBytesPush(b[..i], b[i]);
    Associative(start, ConcatMap(EntriesOf(Nonzero(b[..i])), EntryBytes), NonzeroBytes(b[i]));
  }

  method WritePackedTotals(w: BlobWriter, ws: Bucket, wm: ZSet<Bytes>) returns (ghost es: Entries)
    requires TotalsOk(ws)
    modifies w
    ensures CarriesTotals(es, ws, wm) && w.bytes == old(w.bytes) + WeightsBlob(es)
  {
    ghost var start := w.bytes;
    var sums := SumFlat(ws, wm);
    ghost var rows;
    sums, rows := SumOverlay(ws, wm, RowsOf(ws), sums);
    SumsCarry(ws, wm, rows, sums);
    es := EntriesOf(Nonzero(sums));
    var live := CountNonzero(sums);
    w.PutU64(live);
    WriteNonzero(w, sums);
    Associative(start, U64(live), ConcatMap(es, EntryBytes));
  }

  // ---- read_flat_weights ----

  function ByRow(): (Entry, Entry) -> bool {
    (a: Entry, b: Entry) => Less(a.row, b.row)
  }

  lemma ByRowIsWeak()
    ensures WeakOrder(ByRow())
  {
    forall x: Entry, y: Entry, z: Entry
      ensures ByRow()(x, y) ==> !ByRow()(y, x)
      ensures ByRow()(x, y) && !ByRow()(z, y) ==> ByRow()(x, z)
    {
      LessIsWeak(x.row, y.row, z.row);
    }
  }

  lemma SameEntriesSameWeights(a: Bucket, b: Bucket, row: Bytes)
    requires Clean(a) && Clean(b) && forall e :: e in a <==> e in b
    ensures Weight(a, row) == Weight(b, row)
  {
    WeightDecides(a, row);
    WeightDecides(b, row);
    if Weight(a, row) != 0 {
      var i :| 0 <= i < |b| && b[i] == Entry(row, Weight(a, row));
      WeightPresent(b, i);
    }
  }

  lemma PermutedClean(a: Bucket, b: Bucket)
    requires Clean(a) && multiset(a) == multiset(b)
    ensures Clean(b) && forall e :: e in a <==> e in b
  {
    forall e ensures e in a <==> e in b {
      assert e in multiset(a) <==> e in multiset(b);
    }
    forall i, j | 0 <= i < j < |b| ensures b[i].row != b[j].row {
      if b[i] == b[j] {
        TwiceInBoth(b, a, i, j);
      } else {
        assert b[i] in a && b[j] in a;
      }
    }
    forall i | 0 <= i < |b| ensures b[i].weight != 0 {
      assert b[i] in a;
    }
  }

  method FinishTotals(ws: Bucket) returns (r: Bucket)
    ensures Clean(ws) ==> TotalsOk(r) && forall row :: Weight(r, row) == Weight(ws, row)
  {
    r := Sort(ws, ByRow());
    ByRowIsWeak();
    SortSorted(ws, ByRow());
    if Clean(ws) {
      PermutedClean(ws, r);
      forall row ensures Weight(r, row) == Weight(ws, row) {
        SameEntriesSameWeights(r, ws, row);
      }
      SortedTotals(r);
    }
  }

  lemma SortedTotals(r: Bucket)
    requires Clean(r) && Sorted(r, ByRow())
    ensures TotalsOk(r)
  {
    forall i, j | 0 <= i < j < |r| ensures Less(r[i].row, r[j].row) {
      CmpOrder(r[i].row, r[j].row);
      CmpOrder(r[j].row, r[i].row);
      assert !ByRow()(r[j], r[i]);
    }
  }

  method RestoreEntries(r: BlobReader) returns (ws: Option<Bucket>, ghost es: Entries)
    modifies r
    ensures Took(ReadWeights, r.data, old(r.pos), if ws.Some? then Some(es) else None, r.pos)
    ensures ws.Some? ==> ws.value == BucketFrom(es)
  {
    es := [];
    ghost var start := r.pos;
    var n := r.TakeU64();
    if n.None? {
      return None, [];
    }
    var b: Bucket := [];
    for i := 0 to n.value
      invariant ReadN(r.data, start + 8, i, ReadEntry) == Some((es, r.pos))
      invariant b == BucketFrom(es)
    {
      ghost var at := r.pos;
      var e := TakeEntry(r);
      ReadNNext(r.data, start + 8, i, n.value, ReadEntry, es, at, e, r.pos);
      if e.None? {
        return None, [];
      }
      es := es + [e.value];
      b := b + [Entry(e.value.0, e.value.1)];
    }
    ws := Some(b);
  }

  method RestorePackedTotals(r: BlobReader) returns (ws: Option<Bucket>, ghost es: Entries)
    modifies r
    ensures Took(ReadWeights, r.data, old(r.pos), if ws.Some? then Some(es) else None, r.pos)
    ensures ws.Some? && Clean(BucketFrom(es)) ==>
              TotalsOk(ws.value) && forall row :: Weight(ws.value, row) == Weight(BucketFrom(es), row)
  {
    ws, es := RestoreEntries(r);
    if ws.Some? {
      var sorted := FinishTotals(ws.value);
      ws := Some(sorted);
    }
  }
}

// A packed join node saved and restored.
module PackedCheckpoint {
  import opened ZSets
  import opened Rows
  import opened Buckets
  import PackedIntegrate
  import opened FlatPacked
  import opened FlatBuild
  import opened PackedSides
  import opened ByteStrings
  import opened BlobFormat
  import opened BlobMaps
  import opened JoinBlobs
  import opened JoinCheckpoint
  import LittleEndian
  import opened PackedBlobs
  import opened PackedTotals
  import opened FlatTotals

  // ---- read_flat_index ----

  method RestoreRows(r: BlobReader, f: Flat) returns (ok: bool, g: Flat, ghost es: Entries)
    modifies r
    ensures Took(ReadWeights, r.data, old(r.pos), if ok then Some(es) else None, r.pos)
    ensures ok ==> RowsRead(f, g, es)
  {
    g, es := f, [];
    ghost var start := r.pos;
    var n := r.TakeU64();
    if n.None? {
      return false, g, es;
    }
    for i := 0 to n.value
      invariant ReadN(r.data, start + 8, i, ReadEntry) == Some((es, r.pos))
      invariant RowsRead(f, g, es)
    {
      var more;
      more, g, es := RestoreRow(r, f, g, es, start + 8, i, n.value);
      if !more {
        return false, g, es;
      }
    }
    ok := true;
  }

  method RestoreRow(r: BlobReader, ghost f: Flat, g0: Flat, ghost es0: Entries, ghost start: nat, ghost i: nat, ghost n: nat)
    returns (ok: bool, g: Flat, ghost es: Entries)
    requires i < n && ReadN(r.data, start, i, ReadEntry) == Some((es0, r.pos)) && RowsRead(f, g0, es0)
    modifies r
    ensures !ok ==> ReadN(r.data, start, n, ReadEntry).None?
    ensures ok ==> ReadN(r.data, start, i + 1, ReadEntry) == Some((es, r.pos)) && RowsRead(f, g, es)
  {
    g, es := g0, es0;
    ghost var at := r.pos;
    var e := TakeEntry(r);
    ReadNNext(r.data, start, i, n, ReadEntry, es, at, e, r.pos);
    if e.None? {
      return false, g, es;
    }
    RowsGrow(f, g, es, e.value);
    ok, g, es := true, WithRow(g, e.value), es + [e.value];
  }

  function WithRow(g: Flat, e: (Bytes, int)): Flat {
    Flat(g.arena + e.0, g.dir, g.buckets + [BucketEnt(|g.arena|, |e.0|, e.1)])
  }

  // The rows appended to f so far are the entries read.
  ghost predicate RowsRead(f: Flat, g: Flat, es: Entries) {
    && Grows(f, g) && g.dir == f.dir && |g.buckets| == |f.buckets| + |es|
    && (forall j :: |f.buckets| <= j < |g.buckets| ==> RowInArena(g.arena, g.buckets[j]))
    && Decode(g.arena, g.buckets[|f.buckets|..]) == BucketFrom(es)
  }

  lemma RowsGrow(f: Flat, g: Flat, es: Entries, e: (Bytes, int))
    requires RowsRead(f, g, es)
    ensures RowsRead(f, WithRow(g, e), es + [e])
  {
    var g' := WithRow(g, e);
    RowAppended(g, g', |f.buckets|, Entry(e.0, e.1));
    assert g'.arena[..|g.arena|] == g.arena && g'.buckets[..|g.buckets|] == g.buckets;
    assert BucketFrom(es + [e]) == BucketFrom(es) + [Entry(e.0, e.1)];
  }

  // What one more directory entry must be.
  ghost predicate EntryIs(g: Flat, ent: DirEnt, e: (Bytes, Entries)) {
    EntInBounds(g, ent) && Key(g, ent) == e.0 && BucketOf(g, ent) == BucketFrom(e.1)
  }

  method RestoreGroup(r: BlobReader, f: Flat) returns (ok: bool, g: Flat, ghost e: (Bytes, Entries))
    modifies r
    ensures Took(ReadBucket, r.data, old(r.pos), if ok then Some(e) else None, r.pos)
    ensures ok ==> Grows(f, g) && |g.dir| == |f.dir| + 1 && EntryIs(g, g.dir[|f.dir|], e)
  {
    g, e := f, ([], []);
    var kb := r.TakeBytes();
    if kb.None? {
      return false, g, e;
    }
    var g0 := f.(arena := f.arena + kb.value);
    ghost var es;
    ok, g, es := RestoreRows(r, g0);
    if !ok {
      return false, g, e;
    }
    e := (kb.value, es);
    var ent := DirEnt(|f.arena|, |kb.value|, |f.buckets|, |g.buckets| - |f.buckets|);
    EntryMade(f, kb.value, g, es, ent);
    g := g.(dir := g.dir + [ent]);
  }

  // The key's bytes and then its rows make the directory entry.
  lemma EntryMade(f: Flat, kb: Bytes, g: Flat, es: Entries, ent: DirEnt)
    requires RowsRead(f.(arena := f.arena + kb), g, es)
    requires ent == DirEnt(|f.arena|, |kb|, |f.buckets|, |g.buckets| - |f.buckets|)
    ensures var g' := g.(dir := g.dir + [ent]);
            Grows(f, g') && |g'.dir| == |f.dir| + 1 && EntryIs(g', g'.dir[|f.dir|], (kb, es))
  {
    var n := |f.arena + kb|;
    assert g.arena[..n] == f.arena + kb;
    assert Text(g.arena, ent.keyOff, ent.keyLen) == g.arena[..n][|f.arena|..] == kb;
    assert g.arena[..|f.arena|] == g.arena[..n][..|f.arena|] == f.arena;
    assert g.buckets[ent.bucketOff..ent.bucketOff + ent.bucketN] == g.buckets[|f.buckets|..];
  }

  // The directory spells out the groups, in order.
  ghost predicate Holds(f: Flat, gs: Groups) {
    |f.dir| == |gs| && forall i {:trigger f.dir[i]} {:trigger gs[i]} :: 0 <= i < |gs| ==> EntryIs(f, f.dir[i], gs[i])
  }

  lemma HoldsPush(f: Flat, gs: Groups, g: Flat, e: (Bytes, Entries))
    requires Holds(f, gs) && Grows(f, g) && |g.dir| == |f.dir| + 1 && EntryIs(g, g.dir[|f.dir|], e)
    ensures Holds(g, gs + [e])
  {
    forall i | 0 <= i < |gs| ensures EntryIs(g, g.dir[i], gs[i]) {
      assert EntryIs(f, f.dir[i], gs[i]);
      EntryGrows(f, g, f.dir[i]);
    }
  }

  lemma HeldAt(f: Flat, gs: Groups, i: nat)
    requires Holds(f, gs) && i < |gs|
    ensures EntInBounds(f, f.dir[i]) && Key(f, f.dir[i]) == gs[i].0 && BucketOf(f, f.dir[i]) == BucketFrom(gs[i].1)
  {
    assert EntryIs(f, f.dir[i], gs[i]);
  }

  lemma HeldLookup(f: Flat, gs: Groups, k: Bytes)
    requires Holds(f, gs) && GroupsOk(gs) && FlatLoose(f)
    ensures Lookup(f, k) == Listed(gs, k)
  {
    forall i | 0 <= i < |gs| ensures EntInBounds(f, f.dir[i]) && Key(f, f.dir[i]) == gs[i].0 {
      HeldAt(f, gs, i);
    }
    if i :| 0 <= i < |f.dir| && Key(f, f.dir[i]) == k {
      HeldAt(f, gs, i);
      LookupAt(f, i);
      ListedAt(gs, i);
    } else {
      NotListed(gs, k);
    }
  }

  lemma HoldsLoose(f: Flat, gs: Groups)
    requires Holds(f, gs) && GroupsOk(gs)
    ensures FlatLoose(f) && forall k :: Lookup(f, k) == Listed(gs, k)
  {
    forall i | 0 <= i < |gs| ensures EntInBounds(f, f.dir[i]) && Key(f, f.dir[i]) == gs[i].0 && BucketOf(f, f.dir[i]) == BucketFrom(gs[i].1) {
      HeldAt(f, gs, i);
    }
    assert InBounds(f) by {
      forall x | x in f.dir ensures EntInBounds(f, x) {
        var i :| 0 <= i < |f.dir| && f.dir[i] == x;
      }
    }
    forall k ensures Lookup(f, k) == Listed(gs, k) {
      HeldLookup(f, gs, k);
    }
  }

  method RestorePackedIndex(r: BlobReader) returns (ok: bool, f: Flat, ghost gs: Groups)
    modifies r
    ensures Took(ReadIndex, r.data, old(r.pos), if ok then Some(gs) else None, r.pos)
    ensures ok && GroupsOk(gs) ==> FlatOk(f) && forall k :: Lookup(f, k) == Listed(gs, k)
  {
    f, gs := Flat([], [], []), [];
    ghost var start := r.pos;
    var n := r.TakeU64();
    if n.None? {
      return false, f, gs;
    }
    for i := 0 to n.value
      invariant ReadN(r.data, start + 8, i, ReadBucket) == Some((gs, r.pos))
      invariant Holds(f, gs)
    {
      ghost var at, was := r.pos, f;
      ghost var e;
      ok, f, e := RestoreGroup(r, f);
      ReadNNext(r.data, start + 8, i, n.value, ReadBucket, gs, at, if ok then Some(e) else None, r.pos);
      if !ok {
        return false, f, gs;
      }
      HoldsPush(was, gs, f, e);
      gs := gs + [e];
    }
    if GroupsOk(gs) {
      HoldsLoose(f, gs);
    }
    f := FinishBuild(f);
    ok := true;
  }

  // ---- the node ----

  // One side: both layers of its index and of its row totals.
  datatype Layered = Layered(flat: Flat, overlay: PackedIntegrate.Index, totals: Bucket, newer: ZSet<Bytes>)
  datatype PackedState = PackedState(left: Layered, right: Layered, leftPad: ZSet<Row>, rightPad: ZSet<Row>)

  ghost predicate LayersOk(s: Layered) {
    FlatOk(s.flat) && PackedIntegrate.CleanIndex(s.overlay) && TotalsOk(s.totals)
  }

  // The same rows under every key, and the same row totals.
  ghost predicate SameContent(a: Layered, b: Layered)
    requires LayersOk(a) && LayersOk(b)
  {
    && (forall k, row {:trigger Both(a.flat, a.overlay, k, row)} {:trigger Both(b.flat, b.overlay, k, row)} ::
          Both(a.flat, a.overlay, k, row) == Both(b.flat, b.overlay, k, row))
    && forall row {:trigger BothTotals(a.totals, a.newer, row)} {:trigger BothTotals(b.totals, b.newer, row)} ::
         BothTotals(a.totals, a.newer, row) == BothTotals(b.totals, b.newer, row)
  }

  const MAGIC: nat := 0xDB5B_2DFA_CC0F_FEE1

  lemma MagicFits()
    ensures MAGIC < Size()
  {
    assert Size() == 256 * LittleEndian.Pow256(7);
    assert LittleEndian.Pow256(7) == 256 * LittleEndian.Pow256(6);
    assert LittleEndian.Pow256(6) == 256 * LittleEndian.Pow256(5);
    assert LittleEndian.Pow256(5) == 256 * LittleEndian.Pow256(4);
    assert LittleEndian.Pow256(4) == 256 * LittleEndian.Pow256(3);
    assert LittleEndian.Pow256(3) == 256 * LittleEndian.Pow256(2);
    assert LittleEndian.Pow256(2) == 256 * LittleEndian.Pow256(1);
  }

  // Parts behind a tag.
  function TaggedBlob(tag: nat, ps: Parts): Bytes {
    U64(tag) + PartsBlob(ps)
  }

  predicate TaggedAccepted(tag: nat, b: Bytes) {
    ReadU64(b, 0) == Some((tag, 8)) && ReadParts(b, 8).Some? && ReadParts(b, 8).value.1 == |b|
  }

  function PackedBlob(ps: Parts): Bytes {
    TaggedBlob(MAGIC, ps)
  }

  predicate PackedAccepted(b: Bytes) {
    TaggedAccepted(MAGIC, b)
  }

  lemma BehindTag<T(!new)>(b: Bytes, tag: nat, rd: Reader<T>, body: Bytes, x: T)
    requires tag < Size() && ReadsBack(rd, body, x) && b == U64(tag) + body
    ensures ReadU64(b, 0) == Some((tag, 8)) && rd(b, 8) == Some((x, |b|))
  {
    assert StartsAt(b, 0, U64(tag) + body);
    StartsSplit(b, 0, U64(tag), body);
    U64Back(b, 0, tag);
  }

  lemma TaggedBack(tag: nat, ps: Parts)
    requires PartsFit(ps) && tag < Size()
    ensures TaggedAccepted(tag, TaggedBlob(tag, ps)) && ReadParts(TaggedBlob(tag, ps), 8).value.0 == ps
  {
    PartsBack(ps);
    BehindTag(TaggedBlob(tag, ps), tag, ReadParts, PartsBlob(ps), ps);
  }

  lemma PackedBack(ps: Parts)
    requires PartsFit(ps)
    ensures PackedAccepted(PackedBlob(ps)) && ReadParts(PackedBlob(ps), 8).value.0 == ps
  {
    MagicFits();
    TaggedBack(MAGIC, ps);
  }

  lemma LeadingCount(ps: Parts)
    requires |ps.0.0| < Size()
    ensures ReadU64(PartsBlob(ps), 0).Some? && ReadU64(PartsBlob(ps), 0).value.0 == |ps.0.0|
  {
    var b := PartsBlob(ps);
    assert StartsAt(b, 0, IndexBlob(ps.0.0) + IndexBlob(ps.0.1));
    StartsSplit(b, 0, IndexBlob(ps.0.0), IndexBlob(ps.0.1));
    StartsSplit(b, 0, U64(|ps.0.0|), ConcatMap(ps.0.0, BucketBytes));
    U64Back(b, 0, |ps.0.0|);
  }

  // A blob written before packed storage starts with the number of keys of
  // the left index; it is told apart by that and left to the replay.
  lemma BoxedBlobRejected(ps: Parts)
    requires |ps.0.0| < Size() && |ps.0.0| != MAGIC
    ensures !PackedAccepted(PartsBlob(ps))
  {
    LeadingCount(ps);
  }

  ghost predicate SideCarried(s: Layered, gs: Groups, es: Entries)
    requires LayersOk(s)
  {
    Carries(gs, s.flat, s.overlay) && CarriesTotals(es, s.totals, s.newer)
  }

  ghost predicate PadsListed(cd: RowCodec, st: PackedState, ps: Parts) {
    Lists(cd, st.leftPad, ps.1.1.0) && Lists(cd, st.rightPad, ps.1.1.1)
  }

  method SavePacked(st: PackedState, cd: RowCodec) returns (blob: Bytes, ghost ps: Parts)
    requires LayersOk(st.left) && LayersOk(st.right)
    requires Faithful(cd) && WeightsFit(cd, st.leftPad) && WeightsFit(cd, st.rightPad)
    ensures SideCarried(st.left, ps.0.0, ps.1.0.0) && SideCarried(st.right, ps.0.1, ps.1.0.1)
    ensures PadsListed(cd, st, ps) && blob == PackedBlob(ps)
  {
    var w := new BlobWriter();
    w.PutU64(MAGIC);
    ghost var li := WritePackedIndex(w, st.left.flat, st.left.overlay);
    ghost var ri := WritePackedIndex(w, st.right.flat, st.right.overlay);
    ghost var lw := WritePackedTotals(w, st.left.totals, st.left.newer);
    ghost var rw := WritePackedTotals(w, st.right.totals, st.right.newer);
    ghost var lp := WriteWeights(w, cd, st.leftPad);
    ghost var rp := WriteWeights(w, cd, st.rightPad);
    blob, ps := w.bytes, ((li, ri), ((lw, rw), (lp, rp)));
    RegroupPacked(U64(MAGIC), IndexBlob(li), IndexBlob(ri), WeightsBlob(lw), WeightsBlob(rw), WeightsBlob(lp), WeightsBlob(rp));
  }

  lemma RegroupPacked(m: Bytes, a: Bytes, b: Bytes, c: Bytes, d: Bytes, e: Bytes, f: Bytes)
    ensures [] + m + a + b + c + d + e + f == m + ((a + b) + ((c + d) + (e + f)))
  {
  }

  // The groups and totals read as one immutable layer.
  ghost predicate SideRead(s: Layered, gs: Groups, es: Entries) {
    && s.overlay == map[] && s.newer == map[]
    && (GroupsOk(gs) ==> FlatOk(s.flat) && forall k :: Lookup(s.flat, k) == Listed(gs, k))
    && (Clean(BucketFrom(es)) ==> TotalsOk(s.totals) && forall row :: Weight(s.totals, row) == Weight(BucketFrom(es), row))
  }

  method RestorePackedIndexes(r: BlobReader) returns (ok: bool, left: Flat, right: Flat, ghost gs: (Groups, Groups))
    modifies r
    ensures Took(ReadIndexes, r.data, old(r.pos), if ok then Some(gs) else None, r.pos)
    ensures ok && GroupsOk(gs.0) ==> FlatOk(left) && forall k :: Lookup(left, k) == Listed(gs.0, k)
    ensures ok && GroupsOk(gs.1) ==> FlatOk(right) && forall k :: Lookup(right, k) == Listed(gs.1, k)
  {
    var f := Flat([], [], []);
    ok, left, right, gs := false, f, f, ([], []);
    ghost var a, b;
    ok, left, a := RestorePackedIndex(r);
    if !ok {
      return;
    }
    ok, right, b := RestorePackedIndex(r);
    gs := (a, b);
  }

  method RestorePackedTotalsPair(r: BlobReader) returns (x: Option<(Bucket, Bucket)>, ghost es: (Entries, Entries))
    modifies r
    ensures Took(ReadWeightPair, r.data, old(r.pos), if x.Some? then Some(es) else None, r.pos)
    ensures x.Some? && Clean(BucketFrom(es.0)) ==>
              TotalsOk(x.value.0) && forall row :: Weight(x.value.0, row) == Weight(BucketFrom(es.0), row)
    ensures x.Some? && Clean(BucketFrom(es.1)) ==>
              TotalsOk(x.value.1) && forall row :: Weight(x.value.1, row) == Weight(BucketFrom(es.1), row)
  {
    es := ([], []);
    var a, ea := RestorePackedTotals(r);
    if a.None? {
      return None, es;
    }
    var b, eb := RestorePackedTotals(r);
    if b.None? {
      return None, es;
    }
    x, es := Some((a.value, b.value)), (ea, eb);
  }

  method RestorePackedTail(r: BlobReader, cd: RowCodec)
    returns (x: Option<((Bucket, Bucket), (ZSet<Row>, ZSet<Row>))>, ghost es: ((Entries, Entries), (Entries, Entries)))
    modifies r
    ensures Took(ReadTotalsAndPads, r.data, old(r.pos), if x.Some? then Some(es) else None, r.pos)
    ensures x.Some? ==> x.value.1 == (FromEntries(cd, es.1.0), FromEntries(cd, es.1.1))
    ensures x.Some? && Clean(BucketFrom(es.0.0)) ==>
              TotalsOk(x.value.0.0) && forall row :: Weight(x.value.0.0, row) == Weight(BucketFrom(es.0.0), row)
    ensures x.Some? && Clean(BucketFrom(es.0.1)) ==>
              TotalsOk(x.value.0.1) && forall row :: Weight(x.value.0.1, row) == Weight(BucketFrom(es.0.1), row)
  {
    es := (([], []), ([], []));
    var totals, ts := RestorePackedTotalsPair(r);
    if totals.None? {
      return None, es;
    }
    var pads, ds := RestoreWeightPair(r, cd);
    if pads.None? {
      return None, es;
    }
    x, es := Some((totals.value, pads.value)), (ts, ds);
  }

  method RestorePacked(cd: RowCodec, blob: Bytes) returns (st: Option<PackedState>)
    ensures st.Some? <==> PackedAccepted(blob)
    ensures st.Some? ==>
              var ps := ReadParts(blob, 8).value.0;
              && SideRead(st.value.left, ps.0.0, ps.1.0.0) && SideRead(st.value.right, ps.0.1, ps.1.0.1)
              && st.value.leftPad == FromEntries(cd, ps.1.1.0) && st.value.rightPad == FromEntries(cd, ps.1.1.1)
  {
    var r := new BlobReader(blob);
    var magic := r.TakeU64();
    if magic != Some(MAGIC) {
      return None;
    }
    var ok, left, right, gs := RestorePackedIndexes(r);
    if !ok {
      return None;
    }
    var tail, es := RestorePackedTail(r, cd);
    if tail.None? {
      return None;
    }
    assert ReadParts(blob, 8) == Some(((gs, es), r.pos));
    var done := r.Done();
    if !done {
      return None;
    }
    var ((lw, rw), (lp, rp)) := tail.value;
    st := Some(PackedState(Layered(left, map[], lw, map[]), Layered(right, map[], rw, map[]), lp, rp));
  }

  // ---- transparency ----

  lemma ReadIsCarried(s: Layered, s': Layered, gs: Groups, es: Entries)
    requires LayersOk(s) && SideCarried(s, gs, es) && SideRead(s', gs, es)
    ensures LayersOk(s') && SameContent(s, s')
  {
    forall k, row ensures Both(s.flat, s.overlay, k, row) == Both(s'.flat, s'.overlay, k, row) {
      assert Weight(Listed(gs, k), row) == Both(s.flat, s.overlay, k, row);
      assert Lookup(s'.flat, k) == Listed(gs, k);
    }
    forall row ensures BothTotals(s.totals, s.newer, row) == BothTotals(s'.totals, s'.newer, row) {
      assert Weight(BucketFrom(es), row) == BothTotals(s.totals, s.newer, row);
    }
  }

  // Everything is in the immutable layer.
  predicate Folded(s: Layered) {
    s.overlay == map[] && s.newer == map[]
  }

  // Within the machine's widths, a restored state has the content of the
  // original on both sides, and its pads.
  method RoundTrip(st: PackedState, cd: RowCodec) returns (st': Option<PackedState>, ghost ps: Parts)
    requires LayersOk(st.left) && LayersOk(st.right)
    requires Faithful(cd) && WeightsFit(cd, st.leftPad) && WeightsFit(cd, st.rightPad)
    ensures SideCarried(st.left, ps.0.0, ps.1.0.0) && SideCarried(st.right, ps.0.1, ps.1.0.1)
    ensures PartsFit(ps) ==>
              && st'.Some? && LayersOk(st'.value.left) && LayersOk(st'.value.right)
              && SameContent(st.left, st'.value.left) && SameContent(st.right, st'.value.right)
              && st'.value.leftPad == st.leftPad && st'.value.rightPad == st.rightPad
              && Folded(st'.value.left) && Folded(st'.value.right)
  {
    var blob;
    blob, ps := SavePacked(st, cd);
    st' := RestorePacked(cd, blob);
    if PartsFit(ps) {
      PackedBack(ps);
      ReadIsCarried(st.left, st'.value.left, ps.0.0, ps.1.0.0);
      ReadIsCarried(st.right, st'.value.right, ps.0.1, ps.1.0.1);
    }
  }

  // Whatever plain index the layers stand for, the restored ones stand for
  // it too, so every later probe finds the same bucket.
  lemma RefinesTheSame(s: Layered, s': Layered, boxed: (Bytes, Bytes) -> int)
    requires LayersOk(s) && LayersOk(s') && SameContent(s, s')
    ensures Refines(s.flat, s.overlay, boxed) <==> Refines(s'.flat, s'.overlay, boxed)
  {
    if Refines(s.flat, s.overlay, boxed) {
      forall k, row ensures Both(s'.flat, s'.overlay, k, row) == boxed(k, row) {
        assert Both(s.flat, s.overlay, k, row) == boxed(k, row);
      }
    }
    if Refines(s'.flat, s'.overlay, boxed) {
      forall k, row ensures Both(s.flat, s.overlay, k, row) == boxed(k, row) {
        assert Both(s'.flat, s'.overlay, k, row) == boxed(k, row);
      }
    }
  }
}

// A packed node saved and restored runs on like the original.
module PackedNodes {
  import opened ZSets
  import opened Rows
  import opened Buckets
  import P = PackedIntegrate
  import opened FlatPacked
  import opened FlatBuild
  import opened FlatTotals
  import opened BlobFormat
  import opened BlobMaps
  import opened JoinBlobs
  import opened JoinCheckpoint
  import opened PackedCheckpoint
  import opened JoinSemantics
  import opened JoinStorage
  import opened JoinSides
  import opened JoinStep
  import opened JoinNode

  function LayeredOf(side: Side): Layered {
    Layered(side.view.store.flat, side.view.store.overlay, side.flatTotals, side.newTotals)
  }

  function WithLayers(side: Side, l: Layered): Side {
    side.(view := side.view.(store := side.view.store.(flat := l.flat, overlay := l.overlay)),
          flatTotals := l.totals, newTotals := l.newer)
  }

  function PackedOf(st: NodeState): PackedState {
    PackedState(LayeredOf(st.left), LayeredOf(st.right), st.leftPad, st.rightPad)
  }

  // What a checkpoint does not carry stays.
  function WithPacked(st: NodeState, p: PackedState): NodeState {
    NodeState(WithLayers(st.left, p.left), WithLayers(st.right, p.right), p.leftPad, p.rightPad, st.marks)
  }

  lemma LocalLayers(c: Config, left: bool, side: Side)
    requires LocalOk(c, left, side) && c.PackedOk()
    ensures PackedCheckpoint.LayersOk(LayeredOf(side))
  {
  }

  lemma FoldedEncoded(f: Form, s: Layered, s': Layered, kb: Bytes)
    requires PackedCheckpoint.LayersOk(s) && PackedCheckpoint.LayersOk(s') && SameContent(s, s') && Folded(s')
    requires AllEncoded(f, Lookup(s.flat, kb)) && AllEncoded(f, P.At(s.overlay, kb))
    ensures AllEncoded(f, Lookup(s'.flat, kb))
  {
    var b := Lookup(s'.flat, kb);
    LookupClean(s'.flat, kb);
    forall i | 0 <= i < |b| ensures Encoded(f, b[i].row) {
      WeightPresent(b, i);
      assert Both(s'.flat, s'.overlay, kb, b[i].row) == Both(s.flat, s.overlay, kb, b[i].row);
      EncodedIfPresent(f, Lookup(s.flat, kb), b[i].row);
      EncodedIfPresent(f, P.At(s.overlay, kb), b[i].row);
    }
  }

  // Layers of the same content hold encodings only, if one of them does.
  lemma EncodingsOnly(f: Form, s: Layered, s': Layered)
    requires PackedCheckpoint.LayersOk(s) && PackedCheckpoint.LayersOk(s') && SameContent(s, s') && Folded(s')
    requires JoinStorage.LayersOk(f, s.flat, s.overlay)
    ensures JoinStorage.LayersOk(f, s'.flat, s'.overlay)
  {
    forall kb ensures AllEncoded(f, Lookup(s'.flat, kb)) {
      assert AllEncoded(f, Lookup(s.flat, kb)) && AllEncoded(f, P.At(s.overlay, kb));
      FoldedEncoded(f, s, s', kb);
    }
    forall kb ensures AllEncoded(f, P.At(s'.overlay, kb)) {
      assert P.At(s'.overlay, kb) == [];
    }
  }

  lemma RestoredReads(v: View, v': View, s: Layered, s': Layered, k: Row, r: Row)
    requires v.proj.None? && v'.proj.None? && v.store.packed && v'.store.packed
    requires v'.store.keyForm == v.store.keyForm && v'.store.rowForm == v.store.rowForm
    requires (s.flat, s.overlay) == (v.store.flat, v.store.overlay) && (s'.flat, s'.overlay) == (v'.store.flat, v'.store.overlay)
    requires JoinStorage.LayersOk(v.store.rowForm, s.flat, s.overlay) && JoinStorage.LayersOk(v.store.rowForm, s'.flat, s'.overlay)
    requires PackedCheckpoint.LayersOk(s) && PackedCheckpoint.LayersOk(s') && SameContent(s, s')
    ensures W(Read(v', k), r) == W(Read(v, k), r)
  {
    if Codable(v.store.keyForm, k) {
      LayersWeight(v.store, k, r);
      LayersWeight(v'.store, k, r);
      var kb, rb := Enc(v.store.keyForm, k), Enc(v.store.rowForm, r);
      assert Both(s'.flat, s'.overlay, kb, rb) == Both(s.flat, s.overlay, kb, rb);
    }
  }

  lemma RestoredTotals(side: Side, side': Side, content: ZSet<Row>)
    requires PackedHere(side) && PackedHere(side') && side'.view.store.rowForm == side.view.store.rowForm
    requires PackedCheckpoint.LayersOk(LayeredOf(side)) && PackedCheckpoint.LayersOk(LayeredOf(side'))
    requires SameContent(LayeredOf(side), LayeredOf(side')) && Normal(side'.newTotals) && Weighs(side, content)
    ensures Weighs(side', content)
  {
    forall row ensures PackedTotal(side', row) == W(content, row) {
      assert PackedTotal(side, row) == W(content, row);
      if Codable(side.view.store.rowForm, row) {
        var rb := Enc(side.view.store.rowForm, row);
        assert BothTotals(side'.flatTotals, side'.newTotals, rb) == BothTotals(side.flatTotals, side.newTotals, rb);
      }
    }
  }

  // A restored side holds what the saved one did.
  lemma RestoredPackedSide(c: Config, left: bool, weighted: bool, saved: Side, blank: Side, l: Layered, restored: Side, content: ZSet<Row>)
    requires c.PackedOk() && LocalOk(c, left, saved) && LocalOk(c, left, blank) && restored == WithLayers(blank, l)
    requires PackedCheckpoint.LayersOk(l) && SameContent(LayeredOf(saved), l) && Folded(l)
    ensures LocalOk(c, left, restored)
    ensures Represents(c.Keys(left), c.nullSafe, weighted, false, saved, content) ==>
              Represents(c.Keys(left), c.nullSafe, weighted, false, restored, content)
  {
    var f := c.RowForm(left);
    EncodingsOnly(f, LayeredOf(saved), l);
    if Represents(c.Keys(left), c.nullSafe, weighted, false, saved, content) {
      forall k, r ensures ReadsAt(c.Keys(left), c.nullSafe, restored.view, content, k, r) {
        assert ReadsAt(c.Keys(left), c.nullSafe, saved.view, content, k, r);
        RestoredReads(saved.view, restored.view, LayeredOf(saved), l, k, r);
      }
      if weighted {
        RestoredTotals(saved, restored, content);
      }
    }
  }

  ghost predicate SameState(p: PackedState, p': PackedState)
    requires PackedCheckpoint.LayersOk(p.left) && PackedCheckpoint.LayersOk(p.right)
    requires PackedCheckpoint.LayersOk(p'.left) && PackedCheckpoint.LayersOk(p'.right)
  {
    && SameContent(p.left, p'.left) && SameContent(p.right, p'.right) && Folded(p'.left) && Folded(p'.right)
    && p'.leftPad == p.leftPad && p'.rightPad == p.rightPad
  }

  // A restored packed state belongs to the same integrated inputs.
  lemma RestoredPackedFor(c: Config, sharedL: bool, sharedR: bool, st: NodeState, st0: NodeState, p: PackedState, L: ZSet<Row>, R: ZSet<Row>)
    requires c.PackedOk() && StateFor(c, sharedL, sharedR, st, L, R) && LocalOk(c, true, st0.left) && LocalOk(c, false, st0.right)
    requires PackedCheckpoint.LayersOk(LayeredOf(st.left)) && PackedCheckpoint.LayersOk(LayeredOf(st.right))
    requires PackedCheckpoint.LayersOk(p.left) && PackedCheckpoint.LayersOk(p.right) && SameState(PackedOf(st), p)
    ensures StateFor(c, sharedL, sharedR, WithPacked(st0, p), L, R)
  {
    var st' := WithPacked(st0, p);
    RestoredPackedSide(c, true, c.PadsLeft(), st.left, st0.left, p.left, st'.left, L);
    RestoredPackedSide(c, false, c.PadsRight(), st.right, st0.right, p.right, st'.right, R);
  }

  method Reload(c: Config, st: NodeState, st0: NodeState, cd: RowCodec, ghost sharedL: bool, ghost sharedR: bool,
                ghost L: ZSet<Row>, ghost R: ZSet<Row>) returns (next: Option<NodeState>, ghost ps: Parts)
    requires c.PackedOk() && StateFor(c, sharedL, sharedR, st, L, R) && LocalOk(c, true, st0.left) && LocalOk(c, false, st0.right)
    requires Faithful(cd) && WeightsFit(cd, st.leftPad) && WeightsFit(cd, st.rightPad)
    ensures PartsFit(ps) ==> next.Some? && StateFor(c, sharedL, sharedR, next.value, L, R)
  {
    LocalLayers(c, true, st.left);
    LocalLayers(c, false, st.right);
    var p;
    p, ps := RoundTrip(PackedOf(st), cd);
    if PartsFit(ps) {
      RestoredPackedFor(c, sharedL, sharedR, st, st0, p.value, L, R);
    }
    next := if p.Some? then Some(WithPacked(st0, p.value)) else None;
  }

  // Save a packed `node` and restore the blob into `twin`. A state whose
  // counts, lengths or weights exceed the blob's fields is not covered.
  method SaveAndRestorePacked(node: PlanJoinNode, twin: PlanJoinNode, cd: RowCodec) returns (ok: bool, ghost ps: Parts)
    requires node.Valid() && twin.Valid() && Twins(node, twin) && node.c.PackedOk()
    requires Faithful(cd) && WeightsFit(cd, node.state.leftPad) && WeightsFit(cd, node.state.rightPad)
    modifies twin`state, twin`L, twin`R, twin`emitted, twin`missing
    ensures PartsFit(ps) ==> ok && twin.Valid() && SameInputs(node, twin)
  {
    var next;
    next, ps := Reload(node.c, node.state, twin.state, cd, node.sharedLeft.Share?, node.sharedRight.Share?, node.L, node.R);
    ok := next.Some?;
    if ok {
      TakeOver(twin, next.value, node.L, node.R, node.emitted, node.missing);
    }
  }
}
