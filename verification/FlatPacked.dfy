// The immutable layer: a key-sorted directory over one byte arena, found by
// binary search, and probed together with the overlay
// (include/dbsp_flat_packed.hpp, include/dbsp_plan_join.hpp).
module FlatPacked {
  import opened ZSets
  import opened Rows
  import opened Buckets

  // Byte order: the first difference decides, then the length.
  function Cmp(a: Bytes, b: Bytes): int {
    if a == [] then (if b == [] then 0 else -1)
    else if b == [] then 1
    else if a[0] != b[0] then a[0] - b[0]
    else Cmp(a[1..], b[1..])
  }

  predicate Less(a: Bytes, b: Bytes) {
    Cmp(a, b) < 0
  }

  lemma {:induction false} CmpOrder(a: Bytes, b: Bytes)
    ensures Cmp(a, b) == 0 <==> a == b
    ensures Cmp(a, b) < 0 <==> Cmp(b, a) > 0
  {
    if a != [] && b != [] && a[0] == b[0] {
      CmpOrder(a[1..], b[1..]);
      assert a == [a[0]] + a[1..] && b == [b[0]] + b[1..];
    }
  }

  lemma {:induction false} LessTransitive(a: Bytes, b: Bytes, c: Bytes)
    requires Less(a, b) && Less(b, c)
    ensures Less(a, c)
  {
    if a != [] && b != [] && c != [] && a[0] == b[0] == c[0] {
      LessTransitive(a[1..], b[1..], c[1..]);
    }
  }

  // cmp_bytes: memcmp over the common length, then the lengths.
  method CmpBytes(a: Bytes, b: Bytes) returns (c: int)
    ensures c < 0 <==> Cmp(a, b) < 0
    ensures c == 0 <==> Cmp(a, b) == 0
  {
    var n := if |a| < |b| then |a| else |b|;
    for i := 0 to n
      invariant Cmp(a, b) == Cmp(a[i..], b[i..])
    {
      if a[i] != b[i] {
        var x: int, y: int := a[i], b[i];
        return x - y;
      }
      assert a[i..][1..] == a[i + 1..] && b[i..][1..] == b[i + 1..];
    }
    c := if |a| < |b| then -1 else if |a| > |b| then 1 else 0;
  }

  datatype DirEnt = DirEnt(keyOff: nat, keyLen: nat, bucketOff: nat, bucketN: nat)
  datatype BucketEnt = BucketEnt(rowOff: nat, rowLen: nat, weight: int)
  datatype Flat = Flat(arena: Bytes, dir: seq<DirEnt>, buckets: seq<BucketEnt>)

  predicate RowInArena(arena: Bytes, be: BucketEnt) {
    be.rowOff + be.rowLen <= |arena|
  }

  function Text(arena: Bytes, off: nat, len: nat): (t: Bytes)
    requires off + len <= |arena|
  {
    arena[off..off + len]
  }

  function EntryAt(arena: Bytes, be: BucketEnt): Entry
    requires RowInArena(arena, be)
  {
    Entry(Text(arena, be.rowOff, be.rowLen), be.weight)
  }

  // Read the bucket entries back as rows.
  function Decode(arena: Bytes, bs: seq<BucketEnt>): (b: Bucket)
    requires forall i :: 0 <= i < |bs| ==> RowInArena(arena, bs[i])
    ensures |b| == |bs|
    ensures forall i :: 0 <= i < |bs| ==> b[i] == EntryAt(arena, bs[i])
  {
    if bs == [] then []
    else Decode(arena, bs[..|bs| - 1]) + [EntryAt(arena, bs[|bs| - 1])]
  }

  predicate EntInBounds(f: Flat, e: DirEnt) {
    && e.keyOff + e.keyLen <= |f.arena|
    && e.bucketOff + e.bucketN <= |f.buckets|
    && forall i :: e.bucketOff <= i < e.bucketOff + e.bucketN ==> RowInArena(f.arena, f.buckets[i])
  }

  function Key(f: Flat, e: DirEnt): Bytes
    requires EntInBounds(f, e)
  {
    Text(f.arena, e.keyOff, e.keyLen)
  }

  function BucketOf(f: Flat, e: DirEnt): Bucket
    requires EntInBounds(f, e)
  {
    Decode(f.arena, f.buckets[e.bucketOff..e.bucketOff + e.bucketN])
  }

  predicate InBounds(f: Flat) {
    forall e :: e in f.dir ==> EntInBounds(f, e)
  }

  // Each key once, and under it a non-empty clean bucket.
  ghost predicate FlatLoose(f: Flat) {
    && InBounds(f)
    && (forall i, j :: 0 <= i < j < |f.dir| ==> Key(f, f.dir[i]) != Key(f, f.dir[j]))
    && forall i :: 0 <= i < |f.dir| ==> BucketOf(f, f.dir[i]) != [] && Clean(BucketOf(f, f.dir[i]))
  }

  // ... and the keys are strictly sorted.
  ghost predicate FlatOk(f: Flat) {
    && FlatLoose(f)
    && forall i, j :: 0 <= i < j < |f.dir| ==> Less(Key(f, f.dir[i]), Key(f, f.dir[j]))
  }

  // The bucket stored under a key, [] when there is none.
  ghost function Lookup(f: Flat, k: Bytes): Bucket
    requires InBounds(f)
  {
    if i :| 0 <= i < |f.dir| && Key(f, f.dir[i]) == k then BucketOf(f, f.dir[i]) else []
  }

  lemma LookupAt(f: Flat, i: nat)
    requires FlatLoose(f) && i < |f.dir|
    ensures Lookup(f, Key(f, f.dir[i])) == BucketOf(f, f.dir[i])
  {
    var k := Key(f, f.dir[i]);
    var j :| 0 <= j < |f.dir| && Key(f, f.dir[j]) == k && Lookup(f, k) == BucketOf(f, f.dir[j]);
    assert i == j;
  }

  lemma LookupClean(f: Flat, k: Bytes)
    requires FlatLoose(f)
    ensures Clean(Lookup(f, k))
  {
  }

  // find: binary search over the directory.
  method Find(f: Flat, kb: Bytes) returns (r: Option<DirEnt>)
    requires FlatOk(f)
    ensures r.Some? ==> r.value in f.dir && Key(f, r.value) == kb && Lookup(f, kb) == BucketOf(f, r.value)
    ensures r.None? ==> Lookup(f, kb) == [] && forall e :: e in f.dir ==> Key(f, e) != kb
  {
    var lo, hi := 0, |f.dir|;
    while lo < hi
      invariant 0 <= lo <= hi <= |f.dir|
      invariant forall i :: 0 <= i < lo ==> Less(Key(f, f.dir[i]), kb)
      invariant forall i :: hi <= i < |f.dir| ==> Less(kb, Key(f, f.dir[i]))
    {
      var mid := lo + (hi - lo) / 2;
      var key := Key(f, f.dir[mid]);
      var c := CmpBytes(key, kb);
      CmpOrder(key, kb);
      if c == 0 {
        LookupAt(f, mid);
        return Some(f.dir[mid]);
      }
      Narrow(f, kb, mid);
      if c < 0 {
        lo := mid + 1;
      } else {
        hi := mid;
      }
    }
    Absent(f, kb, lo);
    return None;
  }

  lemma Narrow(f: Flat, kb: Bytes, mid: nat)
    requires FlatOk(f) && mid < |f.dir|
    ensures Less(Key(f, f.dir[mid]), kb) ==> forall i :: 0 <= i <= mid ==> Less(Key(f, f.dir[i]), kb)
    ensures Cmp(Key(f, f.dir[mid]), kb) > 0 ==> forall i :: mid <= i < |f.dir| ==> Less(kb, Key(f, f.dir[i]))
  {
    CmpOrder(Key(f, f.dir[mid]), kb);
    CmpOrder(kb, Key(f, f.dir[mid]));
    forall i | 0 <= i < mid && Less(Key(f, f.dir[mid]), kb) ensures Less(Key(f, f.dir[i]), kb) {
      LessTransitive(Key(f, f.dir[i]), Key(f, f.dir[mid]), kb);
    }
    forall i | mid < i < |f.dir| && Less(kb, Key(f, f.dir[mid])) ensures Less(kb, Key(f, f.dir[i])) {
      LessTransitive(kb, Key(f, f.dir[mid]), Key(f, f.dir[i]));
    }
  }

  lemma Absent(f: Flat, kb: Bytes, lo: nat)
    requires FlatOk(f) && lo <= |f.dir|
    requires forall i :: 0 <= i < lo ==> Less(Key(f, f.dir[i]), kb)
    requires forall i :: lo <= i < |f.dir| ==> Less(kb, Key(f, f.dir[i]))
    ensures forall e :: e in f.dir ==> Key(f, e) != kb
    ensures Lookup(f, kb) == []
  {
    forall i | 0 <= i < |f.dir| ensures Key(f, f.dir[i]) != kb {
      CmpOrder(Key(f, f.dir[i]), kb);
    }
  }

  // ---- probing both layers ----

  method SumRows(m0: ZSet<Bytes>, b: Bucket) returns (m: ZSet<Bytes>)
    requires Normal(m0)
    ensures Normal(m)
    ensures forall row {:trigger W(m, row)} :: W(m, row) == W(m0, row) + Weight(b, row)
  {
    m := m0;
    assert forall row :: Weight(b[..0], row) == 0;
    for i := 0 to |b|
      invariant Normal(m)
      invariant forall row {:trigger W(m, row)} :: W(m, row) == W(m0, row) + Weight(b[..i], row)
    {
      assert b[..i + 1][..i] == b[..i];
      m := Insert(m, b[i].row, b[i].weight);
    }
    assert b[..|b|] == b;
  }

  // The bucket of a key over both layers: row -> flat weight + overlay delta.
  ghost predicate Probed(f: Flat, overlay: Bucket, kb: Bytes, out: ZSet<Bytes>)
    requires InBounds(f)
  {
    && Normal(out)
    && forall row {:trigger W(out, row)} :: W(out, row) == Weight(Lookup(f, kb), row) + Weight(overlay, row)
  }

  method ProbePacked(idx: map<Bytes, Bucket>, f: Flat, kb: Bytes) returns (found: bool, out: ZSet<Bytes>)
    requires FlatOk(f) && forall k :: k in idx ==> idx[k] != [] && Clean(idx[k])
    ensures Probed(f, if kb in idx then idx[kb] else [], kb, out)
    ensures found <==> out != map[]
  {
    var fe := Find(f, kb);
    if kb !in idx && fe.None? {
      return false, map[];
    }
    if fe.Some? && kb !in idx {
      out := SumRows(map[], BucketOf(f, fe.value));
      return out != map[], out;
    }
    if fe.None? {
      out := SumRows(map[], idx[kb]);
      NotEmpty(idx[kb], out);
      return true, out;
    }
    out := SumRows(map[], BucketOf(f, fe.value));
    out := SumRows(out, idx[kb]);
    found := out != map[];
  }

  lemma NotEmpty(b: Bucket, out: ZSet<Bytes>)
    requires b != [] && Clean(b) && forall row :: W(out, row) == Weight(b, row)
    ensures out != map[]
  {
    WeightPresent(b, 0);
    assert W(out, b[0].row) != 0;
  }

  // ---- growing a flat layer ----

  lemma TextGrows(arena: Bytes, more: Bytes, off: nat, len: nat)
    requires off + len <= |arena|
    ensures Text(arena + more, off, len) == Text(arena, off, len)
  {
  }

  lemma {:induction false} DecodeGrows(arena: Bytes, more: Bytes, bs: seq<BucketEnt>)
    requires forall i :: 0 <= i < |bs| ==> RowInArena(arena, bs[i])
    ensures forall i :: 0 <= i < |bs| ==> RowInArena(arena + more, bs[i])
    ensures Decode(arena + more, bs) == Decode(arena, bs)
  {
    forall i | 0 <= i < |bs| ensures Decode(arena + more, bs)[i] == Decode(arena, bs)[i] {
      TextGrows(arena, more, bs[i].rowOff, bs[i].rowLen);
    }
  }

  // Appending to the arena and the bucket list leaves old entries as they were.
  ghost predicate Grows(f: Flat, g: Flat) {
    f.arena <= g.arena && f.buckets <= g.buckets && f.dir <= g.dir
  }

  lemma EntryGrows(f: Flat, g: Flat, e: DirEnt)
    requires Grows(f, g) && EntInBounds(f, e)
    ensures EntInBounds(g, e) && Key(g, e) == Key(f, e) && BucketOf(g, e) == BucketOf(f, e)
  {
    var bs := f.buckets[e.bucketOff..e.bucketOff + e.bucketN];
    assert g.buckets[e.bucketOff..e.bucketOff + e.bucketN] == bs;
    var more := g.arena[|f.arena|..];
    assert g.arena == f.arena + more;
    TextGrows(f.arena, more, e.keyOff, e.keyLen);
    DecodeGrows(f.arena, more, bs);
  }

  // Append one directory entry whose bucket is the tail of g.buckets.
  lemma Appended(f: Flat, g: Flat, e: DirEnt)
    requires FlatLoose(f) && Grows(f, g) && g.dir == f.dir + [e] && EntInBounds(g, e)
    requires BucketOf(g, e) != [] && Clean(BucketOf(g, e)) && Lookup(f, Key(g, e)) == []
    ensures FlatLoose(g)
    ensures forall k :: Lookup(g, k) == if k == Key(g, e) then BucketOf(g, e) else Lookup(f, k)
  {
    forall i | 0 <= i < |f.dir| ensures EntryKept(f, g, i) && Key(f, f.dir[i]) != Key(g, e) {
      EntryGrows(f, g, f.dir[i]);
      LookupAt(f, i);
    }
    AppendedLoose(f, g, e);
    forall k ensures Lookup(g, k) == if k == Key(g, e) then BucketOf(g, e) else Lookup(f, k) {
      AppendedLookup(f, g, e, k);
    }
  }

  ghost predicate EntryKept(f: Flat, g: Flat, i: nat)
    requires InBounds(f) && i < |f.dir|
  {
    && i < |g.dir| && EntInBounds(g, g.dir[i])
    && Key(g, g.dir[i]) == Key(f, f.dir[i]) && BucketOf(g, g.dir[i]) == BucketOf(f, f.dir[i])
  }

  lemma AppendedLoose(f: Flat, g: Flat, e: DirEnt)
    requires FlatLoose(f) && g.dir == f.dir + [e] && EntInBounds(g, e) && BucketOf(g, e) != [] && Clean(BucketOf(g, e))
    requires forall i :: 0 <= i < |f.dir| ==> EntryKept(f, g, i) && Key(f, f.dir[i]) != Key(g, e)
    ensures FlatLoose(g)
  {
    assert InBounds(g) by {
      forall x | x in g.dir ensures EntInBounds(g, x) {
        var i :| 0 <= i < |g.dir| && g.dir[i] == x;
        assert i < |f.dir| ==> EntryKept(f, g, i);
      }
    }
    forall i, j | 0 <= i < j < |g.dir| ensures Key(g, g.dir[i]) != Key(g, g.dir[j]) {
      assert EntryKept(f, g, i) && (j < |f.dir| ==> EntryKept(f, g, j));
    }
    forall i | 0 <= i < |g.dir| ensures BucketOf(g, g.dir[i]) != [] && Clean(BucketOf(g, g.dir[i])) {
      assert i < |f.dir| ==> EntryKept(f, g, i);
    }
  }

  lemma AppendedLookup(f: Flat, g: Flat, e: DirEnt, k: Bytes)
    requires FlatLoose(f) && FlatLoose(g) && g.dir == f.dir + [e]
    requires forall i :: 0 <= i < |f.dir| ==> EntryKept(f, g, i)
    ensures Lookup(g, k) == if k == Key(g, e) then BucketOf(g, e) else Lookup(f, k)
  {
    if k == Key(g, e) {
      LookupAt(g, |f.dir|);
    } else if i :| 0 <= i < |f.dir| && Key(f, f.dir[i]) == k {
      KeptLookup(f, g, i);
    } else {
      forall j | 0 <= j < |g.dir| ensures Key(g, g.dir[j]) != k {
        assert j < |f.dir| ==> EntryKept(f, g, j);
      }
    }
  }

  lemma KeptLookup(f: Flat, g: Flat, i: nat)
    requires FlatLoose(f) && FlatLoose(g) && i < |f.dir| && EntryKept(f, g, i)
    ensures Lookup(g, Key(f, f.dir[i])) == Lookup(f, Key(f, f.dir[i]))
  {
    LookupAt(f, i);
    LookupAt(g, i);
  }
}

// The row totals of a packed side: a sorted immutable list under an overlay.
module FlatTotals {
  import opened ZSets
  import opened Buckets
  import opened FlatPacked

  // Each row once, sorted by its bytes, none with weight 0.
  ghost predicate TotalsOk(ws: Bucket) {
    && (forall i, j :: 0 <= i < j < |ws| ==> Less(ws[i].row, ws[j].row))
    && forall i :: 0 <= i < |ws| ==> ws[i].weight != 0
  }

  lemma TotalsClean(ws: Bucket)
    requires TotalsOk(ws)
    ensures Clean(ws)
  {
    forall i, j | 0 <= i < j < |ws| ensures ws[i].row != ws[j].row {
      CmpOrder(ws[i].row, ws[j].row);
    }
  }

  lemma NarrowTotals(ws: Bucket, rb: Bytes, mid: nat)
    requires TotalsOk(ws) && mid < |ws|
    ensures Less(ws[mid].row, rb) ==> forall i :: 0 <= i <= mid ==> Less(ws[i].row, rb)
    ensures Less(rb, ws[mid].row) ==> forall i :: mid <= i < |ws| ==> Less(rb, ws[i].row)
  {
    forall i | 0 <= i < mid && Less(ws[mid].row, rb) ensures Less(ws[i].row, rb) {
      LessTransitive(ws[i].row, ws[mid].row, rb);
    }
    forall i | mid < i < |ws| && Less(rb, ws[mid].row) ensures Less(rb, ws[i].row) {
      LessTransitive(rb, ws[mid].row, ws[i].row);
    }
  }

  // find: the row's total by binary search, 0 when it is absent.
  method FindTotal(ws: Bucket, rb: Bytes) returns (w: int)
    requires TotalsOk(ws)
    ensures w == Weight(ws, rb)
  {
    var lo, hi := 0, |ws|;
    while lo < hi
      invariant 0 <= lo <= hi <= |ws|
      invariant forall i :: 0 <= i < lo ==> Less(ws[i].row, rb)
      invariant forall i :: hi <= i < |ws| ==> Less(rb, ws[i].row)
    {
      var mid := lo + (hi - lo) / 2;
      var c := CmpBytes(ws[mid].row, rb);
      CmpOrder(ws[mid].row, rb);
      CmpOrder(rb, ws[mid].row);
      if c == 0 {
        TotalsClean(ws);
        WeightPresent(ws, mid);
        return ws[mid].weight;
      }
      NarrowTotals(ws, rb, mid);
      if c < 0 {
        lo := mid + 1;
      } else {
        hi := mid;
      }
    }
    forall i | 0 <= i < |ws| ensures ws[i].row != rb {
      CmpOrder(ws[i].row, rb);
      CmpOrder(rb, ws[i].row);
    }
    WeightAbsent(ws, rb);
    w := 0;
  }

  // A row's total over both layers.
  ghost function BothTotals(ws: Bucket, wm: ZSet<Bytes>, row: Bytes): int {
    Weight(ws, row) + W(wm, row)
  }
}

// Folding both layers into one, and the streamed initial fill.
module FlatBuild {
  import opened ZSets
  import Rows
  import opened Buckets
  import opened PackedIntegrate
  import opened FlatPacked
  import opened Sorting

  // ---- fold_packed ----

  // add_bucket: the key's bytes, then each row's, then the directory entry.
  method AppendRows(f: Flat, rows: Bucket) returns (g: Flat)
    ensures Grows(f, g) && g.dir == f.dir && |g.buckets| == |f.buckets| + |rows|
    ensures forall i :: |f.buckets| <= i < |g.buckets| ==> RowInArena(g.arena, g.buckets[i])
    ensures Decode(g.arena, g.buckets[|f.buckets|..]) == rows
  {
    g := f;
    ghost var n := |f.buckets|;
    for i := 0 to |rows|
      invariant Grows(f, g) && g.dir == f.dir && |g.buckets| == n + i
      invariant forall j :: n <= j < |g.buckets| ==> RowInArena(g.arena, g.buckets[j])
      invariant Decode(g.arena, g.buckets[n..]) == rows[..i]
    {
      ghost var was := g;
      g := Flat(g.arena + rows[i].row, g.dir, g.buckets + [BucketEnt(|g.arena|, |rows[i].row|, rows[i].weight)]);
      RowAppended(was, g, n, rows[i]);
    }
  }

  lemma RowAppended(was: Flat, g: Flat, n: nat, e: Entry)
    requires n <= |was.buckets|
    requires forall j :: n <= j < |was.buckets| ==> RowInArena(was.arena, was.buckets[j])
    requires g.arena == was.arena + e.row && g.buckets == was.buckets + [BucketEnt(|was.arena|, |e.row|, e.weight)]
    ensures forall j :: n <= j < |g.buckets| ==> RowInArena(g.arena, g.buckets[j])
    ensures Decode(g.arena, g.buckets[n..]) == Decode(was.arena, was.buckets[n..]) + [e]
  {
    DecodeGrows(was.arena, e.row, was.buckets[n..]);
    assert g.buckets[n..] == was.buckets[n..] + [g.buckets[|was.buckets|]];
    assert g.buckets[n..][..|g.buckets| - n - 1] == was.buckets[n..];
    assert Text(g.arena, |was.arena|, |e.row|) == e.row;
  }

  method AddBucket(f: Flat, kb: Bytes, rows: Bucket) returns (g: Flat)
    requires FlatLoose(f) && Clean(rows) && Lookup(f, kb) == []
    ensures FlatLoose(g) && forall k :: Lookup(g, k) == if k == kb then rows else Lookup(f, k)
  {
    if rows == [] {
      return f;
    }
    var g0 := f.(arena := f.arena + kb);
    g := AppendRows(g0, rows);
    var e := DirEnt(|f.arena|, |kb|, |f.buckets|, |rows|);
    assert g.arena[..|g0.arena|] == g0.arena;
    assert Text(g.arena, e.keyOff, e.keyLen) == kb;
    g := g.(dir := g.dir + [e]);
    assert g.buckets[e.bucketOff..e.bucketOff + e.bucketN] == g.buckets[|f.buckets|..];
    Appended(f, g, e);
  }

  // The rows of a merged bucket, without the zeros.
  method EmitRows(m: ZSet<Bytes>) returns (rows: Bucket)
    requires Normal(m)
    ensures Clean(rows) && forall row {:trigger Weight(rows, row)} :: Weight(rows, row) == W(m, row)
  {
    rows := [];
    var todo := m.Keys;
    while todo != {}
      invariant todo <= m.Keys && Clean(rows)
      invariant forall i :: 0 <= i < |rows| ==> rows[i].row in m && rows[i].row !in todo
      invariant forall row {:trigger Weight(rows, row)} :: Weight(rows, row) == if row in todo then 0 else W(m, row)
      decreases todo
    {
      var row :| row in todo;
      forall r ensures Weight(rows + [Entry(row, m[row])], r) == Weight(rows, r) + Share(Entry(row, m[row]), r) {
        WeightPush(rows, Entry(row, m[row]), r);
      }
      rows := rows + [Entry(row, m[row])];
      todo := todo - {row};
    }
  }

  // The content of both layers under a key.
  ghost function Both(f: Flat, idx: Index, k: Bytes, row: Bytes): int
    requires InBounds(f)
  {
    Weight(Lookup(f, k), row) + Weight(PackedIntegrate.At(idx, k), row)
  }

  // Keys in `done` are folded, the others are not in g yet.
  ghost predicate Folding(f: Flat, idx: Index, done: set<Bytes>, g: Flat) {
    && InBounds(f) && FlatLoose(g)
    && (forall k {:trigger Lookup(g, k)} :: k !in done ==> Lookup(g, k) == [])
    && forall k, row {:trigger Weight(Lookup(g, k), row)} :: k in done ==> Weight(Lookup(g, k), row) == Both(f, idx, k, row)
  }

  // One key's merged rows.
  method MergedRows(f: Flat, idx: Index, kb: Bytes) returns (rows: Bucket)
    requires FlatOk(f)
    ensures Clean(rows) && forall row {:trigger Weight(rows, row)} :: Weight(rows, row) == Both(f, idx, kb, row)
  {
    var fe := Find(f, kb);
    var m: ZSet<Bytes> := map[];
    if fe.Some? {
      m := SumRows(m, BucketOf(f, fe.value));
    }
    if kb in idx {
      m := SumRows(m, idx[kb]);
    }
    rows := EmitRows(m);
  }

  lemma FoldingStep(f: Flat, idx: Index, done: set<Bytes>, g0: Flat, kb: Bytes, rows: Bucket, g: Flat)
    requires Folding(f, idx, done, g0) && kb !in done && FlatLoose(g)
    requires forall row :: Weight(rows, row) == Both(f, idx, kb, row)
    requires forall k :: Lookup(g, k) == if k == kb then rows else Lookup(g0, k)
    ensures Folding(f, idx, done + {kb}, g)
  {
  }

  method FoldKey(f: Flat, idx: Index, ghost done: set<Bytes>, g0: Flat, kb: Bytes) returns (g: Flat)
    requires FlatOk(f) && Folding(f, idx, done, g0) && kb !in done
    ensures Folding(f, idx, done + {kb}, g)
  {
    var rows := MergedRows(f, idx, kb);
    g := AddBucket(g0, kb, rows);
    FoldingStep(f, idx, done, g0, kb, rows, g);
  }

  ghost function DirKeys(f: Flat): set<Bytes>
    requires InBounds(f)
  {
    set i | 0 <= i < |f.dir| :: Key(f, f.dir[i])
  }

  // ---- finish_build: sort the directory by key bytes ----

  function SafeText(arena: Bytes, off: nat, len: nat): Bytes {
    if off + len <= |arena| then Text(arena, off, len) else []
  }

  function ByKey(arena: Bytes): (DirEnt, DirEnt) -> bool {
    (a: DirEnt, b: DirEnt) => Less(SafeText(arena, a.keyOff, a.keyLen), SafeText(arena, b.keyOff, b.keyLen))
  }

  lemma LessIsWeak(a: Bytes, b: Bytes, c: Bytes)
    ensures Less(a, b) ==> !Less(b, a)
    ensures Less(a, b) && !Less(c, b) ==> Less(a, c)
  {
    CmpOrder(a, b);
    CmpOrder(b, c);
    CmpOrder(c, b);
    if Less(a, b) && Less(b, c) {
      LessTransitive(a, b, c);
    }
  }

  lemma ByKeyIsWeak(arena: Bytes)
    ensures WeakOrder(ByKey(arena))
  {
    forall x: DirEnt, y: DirEnt, z: DirEnt
      ensures ByKey(arena)(x, y) ==> !ByKey(arena)(y, x)
      ensures ByKey(arena)(x, y) && !ByKey(arena)(z, y) ==> ByKey(arena)(x, z)
    {
      LessIsWeak(SafeText(arena, x.keyOff, x.keyLen), SafeText(arena, y.keyOff, y.keyLen), SafeText(arena, z.keyOff, z.keyLen));
    }
  }

  method FinishBuild(f: Flat) returns (g: Flat)
    ensures g.arena == f.arena && g.buckets == f.buckets && multiset(g.dir) == multiset(f.dir)
    ensures FlatLoose(f) ==> FlatOk(g) && forall k :: Lookup(g, k) == Lookup(f, k)
  {
    g := f.(dir := Sort(f.dir, ByKey(f.arena)));
    ByKeyIsWeak(f.arena);
    SortSorted(f.dir, ByKey(f.arena));
    if FlatLoose(f) {
      Permuted(f, g);
      Ordered(g);
    }
  }

  lemma Ordered(g: Flat)
    requires FlatLoose(g) && Sorted(g.dir, ByKey(g.arena))
    ensures FlatOk(g)
  {
    forall i, j | 0 <= i < j < |g.dir| ensures Less(Key(g, g.dir[i]), Key(g, g.dir[j])) {
      CmpOrder(Key(g, g.dir[i]), Key(g, g.dir[j]));
      CmpOrder(Key(g, g.dir[j]), Key(g, g.dir[i]));
      assert !ByKey(g.arena)(g.dir[j], g.dir[i]);
    }
  }

  // Distinct keys make the directory a set; its order does not matter.
  lemma Permuted(f: Flat, g: Flat)
    requires FlatLoose(f) && g.arena == f.arena && g.buckets == f.buckets && multiset(g.dir) == multiset(f.dir)
    ensures FlatLoose(g) && forall k :: Lookup(g, k) == Lookup(f, k)
  {
    forall e ensures e in g.dir <==> e in f.dir {
      assert e in multiset(g.dir) <==> e in multiset(f.dir);
    }
    assert InBounds(g) by {
      forall e | e in g.dir ensures EntInBounds(g, e) {
        assert e in f.dir && EntInBounds(f, e);
      }
    }
    forall i, j | 0 <= i < j < |g.dir| ensures Key(g, g.dir[i]) != Key(g, g.dir[j]) {
      if g.dir[i] == g.dir[j] {
        TwiceInBoth(g.dir, f.dir, i, j);
      } else {
        assert g.dir[i] in f.dir && g.dir[j] in f.dir;
      }
    }
    forall i | 0 <= i < |g.dir| ensures BucketOf(g, g.dir[i]) != [] && Clean(BucketOf(g, g.dir[i])) {
      assert g.dir[i] in f.dir;
    }
    forall k ensures Lookup(g, k) == Lookup(f, k) {
      PermutedLookup(f, g, k);
    }
  }

  lemma PermutedLookup(f: Flat, g: Flat, k: Bytes)
    requires FlatLoose(f) && FlatLoose(g) && g.arena == f.arena && g.buckets == f.buckets
    requires forall e :: e in g.dir <==> e in f.dir
    ensures Lookup(g, k) == Lookup(f, k)
  {
    if i :| 0 <= i < |f.dir| && Key(f, f.dir[i]) == k {
      assert f.dir[i] in g.dir;
      var j :| 0 <= j < |g.dir| && g.dir[j] == f.dir[i];
      SameEntry(f, g, i, j);
    } else {
      forall j | 0 <= j < |g.dir| ensures Key(g, g.dir[j]) != k {
        assert g.dir[j] in f.dir;
      }
    }
  }

  lemma SameEntry(f: Flat, g: Flat, i: nat, j: nat)
    requires FlatLoose(f) && FlatLoose(g) && g.arena == f.arena && g.buckets == f.buckets
    requires i < |f.dir| && j < |g.dir| && g.dir[j] == f.dir[i]
    ensures Key(g, g.dir[j]) == Key(f, f.dir[i]) && Lookup(g, Key(f, f.dir[i])) == Lookup(f, Key(f, f.dir[i]))
  {
    LookupAt(f, i);
    LookupAt(g, j);
  }

  // ---- fold ----

  method FoldPacked(f: Flat, idx: Index) returns (g: Flat)
    requires FlatOk(f)
    ensures FlatOk(g)
    ensures forall k, row {:trigger Weight(Lookup(g, k), row)} :: Weight(Lookup(g, k), row) == Both(f, idx, k, row)
  {
    g := Flat([], [], []);
    ghost var done: set<Bytes> := {};
    for i := 0 to |f.dir|
      invariant Folding(f, idx, done, g) && done == set j | 0 <= j < i :: Key(f, f.dir[j])
    {
      g := FoldKey(f, idx, done, g, Key(f, f.dir[i]));
      done := done + {Key(f, f.dir[i])};
    }
    g := FoldOverlay(f, idx, done, g);
    g := FinishBuild(g);
  }

  method FoldOverlay(f: Flat, idx: Index, ghost done0: set<Bytes>, g0: Flat) returns (g: Flat)
    requires FlatOk(f) && Folding(f, idx, done0, g0) && done0 == DirKeys(f)
    ensures FlatLoose(g)
    ensures forall k, row {:trigger Weight(Lookup(g, k), row)} :: Weight(Lookup(g, k), row) == Both(f, idx, k, row)
  {
    g := g0;
    ghost var done := done0;
    var todo := idx.Keys;
    while todo != {}
      invariant todo <= idx.Keys && Folding(f, idx, done, g) && done == DirKeys(f) + (idx.Keys - todo)
      decreases todo
    {
      var kb :| kb in todo;
      var fe := Find(f, kb);
      InDirectory(f, kb, fe);
      if fe.None? {
        g := FoldKey(f, idx, done, g, kb);
      }
      done := done + {kb};
      todo := todo - {kb};
    }
    FoldedAll(f, idx, done, g);
  }

  lemma InDirectory(f: Flat, kb: Bytes, fe: Rows.Option<DirEnt>)
    requires InBounds(f)
    requires fe.Some? ==> fe.value in f.dir && Key(f, fe.value) == kb
    requires fe.None? ==> forall e :: e in f.dir ==> Key(f, e) != kb
    ensures kb in DirKeys(f) <==> fe.Some?
  {
  }

  lemma FoldedAll(f: Flat, idx: Index, done: set<Bytes>, g: Flat)
    requires FlatOk(f) && Folding(f, idx, done, g) && done == DirKeys(f) + idx.Keys
    ensures forall k, row {:trigger Weight(Lookup(g, k), row)} :: Weight(Lookup(g, k), row) == Both(f, idx, k, row)
  {
    forall k, row ensures Weight(Lookup(g, k), row) == Both(f, idx, k, row) {
      if k !in done {
        assert Lookup(g, k) == [];
        assert forall i :: 0 <= i < |f.dir| ==> Key(f, f.dir[i]) in DirKeys(f);
        assert Lookup(f, k) == [];
      }
    }
  }
}

// One side's packed index over a run of deltas and checkpoint restores.
module PackedSides {
  import opened ZSets
  import opened Buckets
  import opened PackedIntegrate
  import opened FlatPacked
  import opened FlatBuild

  // Both layers together give every row under every key the weight `boxed`
  // does: what an index of plain row maps would hold.
  ghost predicate Refines(flat: Flat, overlay: Index, boxed: (Bytes, Bytes) -> int) {
    && FlatOk(flat) && CleanIndex(overlay)
    && forall k, row {:trigger boxed(k, row)} {:trigger Both(flat, overlay, k, row)} :: Both(flat, overlay, k, row) == boxed(k, row)
  }

  ghost function Added(boxed: (Bytes, Bytes) -> int, dk: seq<DeltaRow>): (Bytes, Bytes) -> int {
    (k, row) => boxed(k, row) + Weight(Adds(dk, k), row)
  }

  lemma RefinesAfter(flat: Flat, before: Index, boxed: (Bytes, Bytes) -> int, dk: seq<DeltaRow>, after: Index)
    requires Refines(flat, before, boxed) && Integrated(before, dk, after)
    ensures Refines(flat, after, Added(boxed, dk))
  {
    forall k, row ensures Both(flat, after, k, row) == Added(boxed, dk)(k, row) {
      assert Both(flat, before, k, row) == boxed(k, row);
      assert Weight(PackedIntegrate.At(after, k), row) == Weight(PackedIntegrate.At(before, k), row) + Weight(Adds(dk, k), row);
    }
  }

  class PackedSide {
    var flat: Flat
    var overlay: Index
    ghost var boxed: (Bytes, Bytes) -> int

    ghost predicate Valid()
      reads this
    {
      Refines(flat, overlay, boxed)
    }

    constructor ()
      ensures Valid() && forall k, row :: boxed(k, row) == 0
    {
      flat := Flat([], [], []);
      overlay := map[];
      boxed := (k, row) => 0;
    }

    method Integrate(dk: seq<DeltaRow>)
      requires Valid() && forall d :: d in dk ==> d.w != 0
      modifies this
      ensures Valid() && boxed == Added(old(boxed), dk)
    {
      var wmap;
      ghost var before := overlay;
      overlay, wmap := IntegratePacked(overlay, map[], dk, false);
      RefinesAfter(flat, before, boxed, dk, overlay);
      boxed := Added(boxed, dk);
    }

    // A checkpoint folds both layers; the restored side reads them as its
    // flat layer under an empty overlay.
    method Restore()
      requires Valid()
      modifies this
      ensures Valid() && boxed == old(boxed) && overlay == map[]
    {
      ghost var was := flat;
      ghost var before := overlay;
      flat := FoldPacked(flat, overlay);
      overlay := map[];
      assert forall k, row :: Both(flat, overlay, k, row) == Both(was, before, k, row);
    }

    method Probe(kb: Bytes) returns (found: bool, out: ZSet<Bytes>)
      requires Valid()
      ensures Normal(out) && forall row :: W(out, row) == boxed(kb, row)
      ensures found <==> exists row :: boxed(kb, row) != 0
    {
      found, out := ProbePacked(overlay, flat, kb);
      forall row ensures W(out, row) == boxed(kb, row) {
        assert Both(flat, overlay, kb, row) == boxed(kb, row);
      }
      if found {
        var row :| row in out;
        assert W(out, row) != 0;
      }
    }
  }
}
