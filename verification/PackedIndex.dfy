// The packed form of a join index: byte-encoded rows in bucket vectors, over
// an immutable sorted layer (include/dbsp_plan_join.hpp,
// include/dbsp_flat_packed.hpp).
module Buckets {
  import opened ZSets

  type Byte = x: int | 0 <= x < 256 witness 0
  type Bytes = seq<Byte>

  datatype Entry = Entry(row: Bytes, weight: int)
  type Bucket = seq<Entry>

  function Share(e: Entry, row: Bytes): int {
    if e.row == row then e.weight else 0
  }

  // The weight a list of entries gives to a row.
  function Weight(b: Bucket, row: Bytes): int {
    if b == [] then 0 else Weight(b[..|b| - 1], row) + Share(b[|b| - 1], row)
  }

  // Each row once, none with weight 0.
  ghost predicate Clean(b: Bucket) {
    && (forall i :: 0 <= i < |b| ==> b[i].weight != 0)
    && forall i, j :: 0 <= i < j < |b| ==> b[i].row != b[j].row
  }

  lemma WeightPush(b: Bucket, e: Entry, row: Bytes)
    ensures Weight(b + [e], row) == Weight(b, row) + Share(e, row)
  {
    assert (b + [e])[..|b|] == b;
  }

  lemma {:induction false} WeightConcat(a: Bucket, b: Bucket, row: Bytes)
    ensures Weight(a + b, row) == Weight(a, row) + Weight(b, row)
  {
    if b == [] {
      assert a + b == a;
    } else {
      assert (a + b)[..|a + b| - 1] == a + b[..|b| - 1];
      WeightConcat(a, b[..|b| - 1], row);
    }
  }

  lemma {:induction false} WeightUpdate(b: Bucket, i: nat, e: Entry, row: Bytes)
    requires i < |b|
    ensures Weight(b[i := e], row) == Weight(b, row) - Share(b[i], row) + Share(e, row)
  {
    var n := |b| - 1;
    if i == n {
      assert b[i := e][..n] == b[..n];
    } else {
      assert b[i := e][..n] == b[..n][i := e];
      WeightUpdate(b[..n], i, e, row);
    }
  }

  lemma {:induction false} WeightAbsent(b: Bucket, row: Bytes)
    requires forall i :: 0 <= i < |b| ==> b[i].row != row
    ensures Weight(b, row) == 0
  {
    if b != [] {
      WeightAbsent(b[..|b| - 1], row);
    }
  }

  // In a clean bucket the weight of a row is the weight of its entry.
  lemma {:induction false} WeightPresent(b: Bucket, i: nat)
    requires Clean(b) && i < |b|
    ensures Weight(b, b[i].row) == b[i].weight
  {
    var n := |b| - 1;
    if i == n {
      WeightAbsent(b[..n], b[i].row);
    } else {
      WeightPresent(b[..n], i);
    }
  }

  // Overwrite slot i with the last entry and drop the last.
  function SwapPop(b: Bucket, i: nat): Bucket
    requires i < |b|
  {
    b[i := b[|b| - 1]][..|b| - 1]
  }

  lemma SwapPopped(b: Bucket, i: nat)
    requires i < |b| && Clean(b)
    ensures Clean(SwapPop(b, i))
    ensures forall row {:trigger Weight(SwapPop(b, i), row)} :: Weight(SwapPop(b, i), row) == Weight(b, row) - Share(b[i], row)
  {
    var n := |b| - 1;
    forall row ensures Weight(SwapPop(b, i), row) == Weight(b, row) - Share(b[i], row) {
      WeightUpdate(b, i, b[n], row);
      assert b[i := b[n]][n] == b[n];
    }
  }

  // ---- the three merges ----

  // What any merge of `adds` into `old` must produce.
  ghost predicate Merged(before: Bucket, adds: Bucket, after: Bucket) {
    && Clean(after)
    && forall row {:trigger Weight(after, row)} :: Weight(after, row) == Weight(before, row) + Weight(adds, row)
  }

  // Per-row merge: add in place, swap-and-pop an entry that reaches 0.
  method MergeRow(before: Bucket, row: Bytes, w: int) returns (bucket: Bucket)
    requires Clean(before) && w != 0
    ensures Merged(before, [Entry(row, w)], bucket)
  {
    bucket := before;
    for b := 0 to |bucket|
      invariant bucket == before
      invariant forall j :: 0 <= j < b ==> bucket[j].row != row
    {
      if bucket[b].row == row {
        bucket := bucket[b := Entry(row, bucket[b].weight + w)];
        UpdatedRow(before, b, w);
        if bucket[b].weight == 0 {
          ghost var zeroed := bucket;
          bucket := SwapPop(bucket, b);
          ZeroDropped(before, zeroed, b, row, w);
        }
        return;
      }
    }
    bucket := bucket + [Entry(row, w)];
    forall r ensures Weight(bucket, r) == Weight(before, r) + Weight([Entry(row, w)], r) {
      WeightConcat(before, [Entry(row, w)], r);
    }
  }

  lemma UpdatedRow(before: Bucket, b: nat, w: int)
    requires Clean(before) && b < |before|
    ensures forall r {:trigger Weight(before[b := Entry(before[b].row, before[b].weight + w)], r)} ::
              Weight(before[b := Entry(before[b].row, before[b].weight + w)], r)
              == Weight(before, r) + Weight([Entry(before[b].row, w)], r)
  {
    forall r ensures Weight(before[b := Entry(before[b].row, before[b].weight + w)], r)
                     == Weight(before, r) + Weight([Entry(before[b].row, w)], r)
    {
      WeightUpdate(before, b, Entry(before[b].row, before[b].weight + w), r);
      WeightPush([], Entry(before[b].row, w), r);
      assert [] + [Entry(before[b].row, w)] == [Entry(before[b].row, w)];
    }
  }

  lemma ZeroDropped(before: Bucket, zeroed: Bucket, b: nat, row: Bytes, w: int)
    requires Clean(before) && b < |before| && before[b].row == row && before[b].weight + w == 0
    requires zeroed == before[b := Entry(row, 0)]
    ensures Merged(before, [Entry(row, w)], SwapPop(zeroed, b))
  {
    assert SwapPop(zeroed, b) == SwapPop(before, b);
    SwapPopped(before, b);
    forall r ensures Weight(SwapPop(before, b), r) == Weight(before, r) + Weight([Entry(row, w)], r) {
      WeightPush([], Entry(row, w), r);
      assert [] + [Entry(row, w)] == [Entry(row, w)];
    }
  }

  // Grouped merge of a small bucket: the per-row merge for each addition.
  method MergeLinear(before: Bucket, adds: Bucket) returns (bucket: Bucket)
    requires Clean(before) && forall i :: 0 <= i < |adds| ==> adds[i].weight != 0
    ensures Merged(before, adds, bucket)
  {
    bucket := before;
    assert forall row :: Weight(adds[..0], row) == 0;
    for i := 0 to |adds|
      invariant Merged(before, adds[..i], bucket)
    {
      ghost var was := bucket;
      bucket := MergeRow(bucket, adds[i].row, adds[i].weight);
      MergedStep(before, adds, i, was, bucket);
    }
    assert adds[..|adds|] == adds;
  }

  lemma MergedStep(before: Bucket, adds: Bucket, i: nat, was: Bucket, bucket: Bucket)
    requires i < |adds| && Merged(before, adds[..i], was) && Merged(was, [Entry(adds[i].row, adds[i].weight)], bucket)
    ensures Merged(before, adds[..i + 1], bucket)
  {
    assert adds[..i + 1] == adds[..i] + [adds[i]];
    forall r ensures Weight(bucket, r) == Weight(before, r) + Weight(adds[..i + 1], r) {
      WeightConcat(adds[..i], [adds[i]], r);
      assert Weight(bucket, r) == Weight(was, r) + Weight([adds[i]], r);
    }
  }

  // ---- position-map merge ----

  // Row -> position over a list with distinct rows.
  ghost predicate Positions(pos: map<Bytes, nat>, b: Bucket) {
    && (forall i :: 0 <= i < |b| ==> b[i].row in pos && pos[b[i].row] == i)
    && forall r :: r in pos ==> pos[r] < |b| && b[pos[r]].row == r
  }

  ghost predicate Distinct(b: Bucket) {
    forall i, j :: 0 <= i < j < |b| ==> b[i].row != b[j].row
  }

  method PositionMap(b: Bucket) returns (pos: map<Bytes, nat>)
    requires Distinct(b)
    ensures Positions(pos, b)
  {
    pos := map[];
    for i := 0 to |b|
      invariant Positions(pos, b[..i])
    {
      assert b[..i + 1] == b[..i] + [b[i]];
      pos := pos[b[i].row := i];
    }
    assert b[..|b|] == b;
  }

  function Nonzero(b: Bucket): Bucket {
    if b == [] then []
    else Nonzero(b[..|b| - 1]) + if b[|b| - 1].weight != 0 then [b[|b| - 1]] else []
  }

  lemma {:induction false} NonzeroKeeps(b: Bucket)
    ensures |Nonzero(b)| <= |b|
    ensures forall e :: e in Nonzero(b) ==> e in b && e.weight != 0
    ensures Distinct(b) ==> Distinct(Nonzero(b))
  {
    if b != [] {
      var n := |b| - 1;
      NonzeroKeeps(b[..n]);
      assert Distinct(b) ==> forall e :: e in b[..n] ==> e.row != b[n].row;
      assert forall i :: 0 <= i < |Nonzero(b[..n])| ==> Nonzero(b[..n])[i] in Nonzero(b[..n]);
    }
  }

  lemma {:induction false} NonzeroWeight(b: Bucket, row: Bytes)
    ensures Weight(Nonzero(b), row) == Weight(b, row)
  {
    if b != [] {
      var n := |b| - 1;
      NonzeroWeight(b[..n], row);
      if b[n].weight != 0 {
        WeightPush(Nonzero(b[..n]), b[n], row);
      } else {
        assert Nonzero(b) == Nonzero(b[..n]);
      }
    }
  }

  // Slide the non-zero entries to the front, then cut the tail.
  method Compact(b0: Bucket) returns (b: Bucket)
    ensures b == Nonzero(b0)
  {
    b := b0;
    var outI := 0;
    for i := 0 to |b0|
      invariant 0 <= outI <= i && |b| == |b0|
      invariant b[..outI] == Nonzero(b0[..i])
      invariant b[i..] == b0[i..]
    {
      assert b0[..i + 1][..i] == b0[..i];
      assert b[i] == b[i..][0] == b0[i];
      if b[i].weight != 0 {
        if outI != i {
          b := b[outI := b[i]];
        }
        outI := outI + 1;
      }
      assert b[i + 1..] == b0[i + 1..];
    }
    assert b0[..|b0|] == b0;
    b := b[..outI];
  }

  // Where the additions seen so far have gone: weights updated in place in
  // `bucket`, new rows collected in `added`.
  ghost predicate Split(before: Bucket, adds: Bucket, bucket: Bucket, added: Bucket) {
    && |bucket| == |before| && (forall i :: 0 <= i < |before| ==> bucket[i].row == before[i].row)
    && Distinct(added)
    && (forall i, j :: 0 <= i < |added| && 0 <= j < |before| ==> added[i].row != before[j].row)
    && forall row {:trigger Weight(bucket, row)} {:trigger Weight(added, row)} ::
         Weight(bucket, row) + Weight(added, row) == Weight(before, row) + Weight(adds, row)
  }

  // One more addition, in either list, keeps the split.
  lemma SplitMoves(before: Bucket, adds: Bucket, e: Entry, bucket0: Bucket, added0: Bucket, bucket: Bucket, added: Bucket)
    requires Split(before, adds, bucket0, added0)
    requires |bucket| == |before| && forall i :: 0 <= i < |before| ==> bucket[i].row == before[i].row
    requires Distinct(added) && forall i, j :: 0 <= i < |added| && 0 <= j < |before| ==> added[i].row != before[j].row
    requires forall row :: Weight(bucket, row) + Weight(added, row)
                           == Weight(bucket0, row) + Weight(added0, row) + Share(e, row)
    ensures Split(before, adds + [e], bucket, added)
  {
    forall row ensures Weight(bucket, row) + Weight(added, row) == Weight(before, row) + Weight(adds + [e], row) {
      WeightPush(adds, e, row);
    }
  }

  lemma Reweighed(b: Bucket, p: nat, e: Entry)
    requires p < |b| && b[p].row == e.row
    ensures var b' := b[p := Entry(e.row, b[p].weight + e.weight)];
            forall row {:trigger Weight(b', row)} :: Weight(b', row) == Weight(b, row) + Share(e, row)
  {
    var b' := b[p := Entry(e.row, b[p].weight + e.weight)];
    forall row ensures Weight(b', row) == Weight(b, row) + Share(e, row) {
      WeightUpdate(b, p, b'[p], row);
    }
  }

  lemma Pushed(b: Bucket, e: Entry)
    ensures forall row {:trigger Weight(b + [e], row)} :: Weight(b + [e], row) == Weight(b, row) + Share(e, row)
  {
    forall row ensures Weight(b + [e], row) == Weight(b, row) + Share(e, row) {
      WeightPush(b, e, row);
    }
  }

  lemma PositionsPush(pos: map<Bytes, nat>, b: Bucket, e: Entry)
    requires Positions(pos, b) && e.row !in pos
    ensures Positions(pos[e.row := |b|], b + [e])
  {
  }

  lemma PositionsKept(pos: map<Bytes, nat>, b: Bucket, p: nat, e: Entry)
    requires Positions(pos, b) && p < |b| && b[p].row == e.row
    ensures Positions(pos, b[p := e])
  {
  }

  method AddOne(ghost before: Bucket, ghost adds: Bucket, e: Entry, bucket0: Bucket, pos: map<Bytes, nat>,
                added0: Bucket, addedPos0: map<Bytes, nat>)
    returns (bucket: Bucket, added: Bucket, addedPos: map<Bytes, nat>)
    requires Split(before, adds, bucket0, added0) && Positions(pos, before) && Positions(addedPos0, added0)
    ensures Split(before, adds + [e], bucket, added) && Positions(addedPos, added)
  {
    bucket, added, addedPos := bucket0, added0, addedPos0;
    if e.row in pos {
      var p := pos[e.row];
      Reweighed(bucket, p, e);
      bucket := bucket[p := Entry(e.row, bucket[p].weight + e.weight)];
    } else if e.row in addedPos {
      var p := addedPos[e.row];
      Reweighed(added, p, e);
      PositionsKept(addedPos, added, p, Entry(e.row, added[p].weight + e.weight));
      added := added[p := Entry(e.row, added[p].weight + e.weight)];
    } else {
      Pushed(added, e);
      PositionsPush(addedPos, added, e);
      addedPos := addedPos[e.row := |added|];
      added := added + [e];
    }
    SplitMoves(before, adds, e, bucket0, added0, bucket, added);
  }

  // Grouped merge of a large bucket.
  method MergeIndexed(before: Bucket, adds: Bucket) returns (bucket: Bucket)
    requires Clean(before)
    ensures Merged(before, adds, bucket)
  {
    var pos := PositionMap(before);
    bucket := before;
    var added: Bucket := [];
    var addedPos: map<Bytes, nat> := map[];
    for i := 0 to |adds|
      invariant Split(before, adds[..i], bucket, added) && Positions(addedPos, added)
    {
      assert adds[..i + 1] == adds[..i] + [adds[i]];
      bucket, added, addedPos := AddOne(before, adds[..i], adds[i], bucket, pos, added, addedPos);
    }
    assert adds[..|adds|] == adds;
    ghost var summed := bucket;
    bucket := Compact(bucket);
    var kept := Compact(added);
    SplitMerged(before, adds, summed, added);
    bucket := bucket + kept;
  }

  lemma SplitMerged(before: Bucket, adds: Bucket, bucket: Bucket, added: Bucket)
    requires Split(before, adds, bucket, added) && Clean(before)
    ensures Merged(before, adds, Nonzero(bucket) + Nonzero(added))
  {
    NonzeroKeeps(bucket);
    NonzeroKeeps(added);
    forall i, j | 0 <= i < |Nonzero(bucket)| && 0 <= j < |Nonzero(added)|
      ensures Nonzero(bucket)[i].row != Nonzero(added)[j].row
    {
      assert Nonzero(bucket)[i] in bucket && Nonzero(added)[j] in added;
    }
    forall row ensures Weight(Nonzero(bucket) + Nonzero(added), row) == Weight(before, row) + Weight(adds, row) {
      WeightConcat(Nonzero(bucket), Nonzero(added), row);
      NonzeroWeight(bucket, row);
      NonzeroWeight(added, row);
    }
    assert Clean(Nonzero(bucket) + Nonzero(added)) by {
      assert forall i :: 0 <= i < |Nonzero(bucket)| ==> Nonzero(bucket)[i] in Nonzero(bucket);
      assert forall i :: 0 <= i < |Nonzero(added)| ==> Nonzero(added)[i] in Nonzero(added);
    }
  }

  // ---- two clean buckets with the same weights hold the same entries ----

  lemma WeightDecides(b: Bucket, row: Bytes)
    requires Clean(b)
    ensures Weight(b, row) != 0 <==> Entry(row, Weight(b, row)) in b
    ensures Weight(b, row) == 0 <==> forall i :: 0 <= i < |b| ==> b[i].row != row
  {
    if i :| 0 <= i < |b| && b[i].row == row {
      WeightPresent(b, i);
    } else {
      WeightAbsent(b, row);
    }
  }

  lemma CleanDetermined(a: Bucket, b: Bucket)
    requires Clean(a) && Clean(b) && forall row :: Weight(a, row) == Weight(b, row)
    ensures forall e :: e in a <==> e in b
  {
    forall e | e in a ensures e in b {
      WeightDecides(a, e.row);
      WeightDecides(b, e.row);
      var i :| 0 <= i < |a| && a[i] == e;
      WeightPresent(a, i);
    }
    forall e | e in b ensures e in a {
      WeightDecides(a, e.row);
      WeightDecides(b, e.row);
      var i :| 0 <= i < |b| && b[i] == e;
      WeightPresent(b, i);
    }
  }
}

// integrate_packed: fold one delta into the overlay, by rows or grouped.
module PackedIntegrate {
  import opened ZSets
  import opened Rows
  import opened Buckets

  type Index = map<Bytes, Bucket>

  // One delta row: its encoded key (None when a NULL makes it unmatchable),
  // its encoded row and its weight.
  datatype DeltaRow = DeltaRow(key: Option<Bytes>, row: Bytes, w: int)

  function At(idx: Index, k: Bytes): Bucket {
    if k in idx then idx[k] else []
  }

  ghost predicate CleanIndex(idx: Index) {
    forall k :: k in idx ==> idx[k] != [] && Clean(idx[k])
  }

  // What a delta adds to one bucket.
  function Adds(dk: seq<DeltaRow>, k: Bytes): Bucket {
    if dk == [] then []
    else
      var d := dk[|dk| - 1];
      Adds(dk[..|dk| - 1], k) + if d.key == Some(k) then [Entry(d.row, d.w)] else []
  }

  // What a delta adds to one row of the side, keyed or not.
  function RowTotal(dk: seq<DeltaRow>, row: Bytes): int {
    if dk == [] then 0
    else RowTotal(dk[..|dk| - 1], row) + if dk[|dk| - 1].row == row then dk[|dk| - 1].w else 0
  }

  // After the delta every bucket weighs what it did plus what was added.
  ghost predicate Integrated(before: Index, dk: seq<DeltaRow>, after: Index) {
    && CleanIndex(after)
    && forall k, row {:trigger Weight(At(after, k), row)} ::
         Weight(At(after, k), row) == Weight(At(before, k), row) + Weight(Adds(dk, k), row)
  }

  ghost predicate Totalled(before: ZSet<Bytes>, dk: seq<DeltaRow>, after: ZSet<Bytes>) {
    && Normal(after)
    && forall row {:trigger W(after, row)} :: W(after, row) == W(before, row) + RowTotal(dk, row)
  }

  // Replace one bucket, dropping the key when it is empty.
  function Put(idx: Index, k: Bytes, b: Bucket): Index {
    if b == [] then idx - {k} else idx[k := b]
  }

  lemma PutAt(idx: Index, k: Bytes, b: Bucket)
    requires CleanIndex(idx) && Clean(b)
    ensures CleanIndex(Put(idx, k, b))
    ensures forall x {:trigger At(Put(idx, k, b), x)} :: At(Put(idx, k, b), x) == if x == k then b else At(idx, x)
  {
  }

  lemma AtClean(idx: Index, k: Bytes)
    requires CleanIndex(idx)
    ensures Clean(At(idx, k))
  {
  }

  lemma AddsPush(dk: seq<DeltaRow>, d: DeltaRow, k: Bytes)
    ensures Adds(dk + [d], k) == Adds(dk, k) + if d.key == Some(k) then [Entry(d.row, d.w)] else []
  {
    assert (dk + [d])[..|dk|] == dk;
  }

  lemma {:induction false} AddsNonzero(dk: seq<DeltaRow>, k: Bytes)
    requires forall d :: d in dk ==> d.w != 0
    ensures forall e :: e in Adds(dk, k) ==> e.weight != 0
  {
    if dk != [] {
      assert dk[|dk| - 1] in dk;
      AddsNonzero(dk[..|dk| - 1], k);
    }
  }

  // ---- the small path ----

  lemma OneAdds(d: DeltaRow, k: Bytes)
    ensures Adds([d], k) == if d.key == Some(k) then [Entry(d.row, d.w)] else []
  {
    AddsPush([], d, k);
    assert [] + [d] == [d] && Adds([], k) == [];
  }

  lemma KeylessIntegrates(idx: Index, d: DeltaRow)
    requires CleanIndex(idx) && d.key.None?
    ensures Integrated(idx, [d], idx)
  {
    forall k, row ensures Weight(At(idx, k), row) == Weight(At(idx, k), row) + Weight(Adds([d], k), row) {
      OneAdds(d, k);
    }
  }

  // Replacing the key's bucket by the merged one integrates the row.
  lemma PutIntegrates(idx: Index, d: DeltaRow, bucket: Bucket)
    requires CleanIndex(idx) && d.key.Some? && Merged(At(idx, d.key.value), [Entry(d.row, d.w)], bucket)
    ensures Integrated(idx, [d], Put(idx, d.key.value, bucket))
  {
    PutAt(idx, d.key.value, bucket);
    forall k ensures Adds([d], k) == if d.key == Some(k) then [Entry(d.row, d.w)] else [] {
      OneAdds(d, k);
    }
  }

  method IntegrateRow(idx0: Index, d: DeltaRow) returns (idx: Index)
    requires CleanIndex(idx0) && d.w != 0
    ensures Integrated(idx0, [d], idx)
  {
    if d.key.None? {
      KeylessIntegrates(idx0, d);
      return idx0;
    }
    var k := d.key.value;
    AtClean(idx0, k);
    var bucket := MergeRow(At(idx0, k), d.row, d.w);
    PutIntegrates(idx0, d, bucket);
    idx := Put(idx0, k, bucket);
  }

  lemma IntegratedStep(before: Index, dk: seq<DeltaRow>, d: DeltaRow, mid: Index, after: Index)
    requires Integrated(before, dk, mid) && Integrated(mid, [d], after)
    ensures Integrated(before, dk + [d], after)
  {
    forall k, row ensures Weight(At(after, k), row) == Weight(At(before, k), row) + Weight(Adds(dk + [d], k), row) {
      AddsPush(dk, d, k);
      AddsPush([], d, k);
      assert [] + [d] == [d];
      WeightConcat(Adds(dk, k), Adds([d], k), row);
      assert Weight(At(after, k), row) == Weight(At(mid, k), row) + Weight(Adds([d], k), row);
    }
  }

  lemma IntegratedNone(idx: Index)
    requires CleanIndex(idx)
    ensures Integrated(idx, [], idx)
  {
    forall k, row ensures Weight(At(idx, k), row) == Weight(At(idx, k), row) + Weight(Adds([], k), row) {
      assert Adds([], k) == [];
    }
  }

  method IntegrateNext(ghost before: Index, ghost prefix: seq<DeltaRow>, d: DeltaRow, idx0: Index) returns (idx: Index)
    requires Integrated(before, prefix, idx0) && d.w != 0
    ensures Integrated(before, prefix + [d], idx)
  {
    idx := IntegrateRow(idx0, d);
    IntegratedStep(before, prefix, d, idx0, idx);
  }

  method IntegrateRows(idx0: Index, dk: seq<DeltaRow>) returns (idx: Index)
    requires CleanIndex(idx0) && forall d :: d in dk ==> d.w != 0
    ensures Integrated(idx0, dk, idx)
  {
    idx := idx0;
    IntegratedNone(idx0);
    assert dk[..0] == [];
    for i := 0 to |dk|
      invariant Integrated(idx0, dk[..i], idx)
    {
      assert dk[i] in dk && dk[..i + 1] == dk[..i] + [dk[i]];
      idx := IntegrateNext(idx0, dk[..i], dk[i], idx);
    }
    assert dk[..|dk|] == dk;
  }

  // ---- the grouped path ----

  method Group(dk: seq<DeltaRow>) returns (grouped: map<Bytes, Bucket>)
    ensures forall k :: At(grouped, k) == Adds(dk, k)
  {
    grouped := map[];
    assert forall k :: Adds(dk[..0], k) == [];
    for i := 0 to |dk|
      invariant forall k :: At(grouped, k) == Adds(dk[..i], k)
    {
      assert dk[..i + 1] == dk[..i] + [dk[i]];
      forall k ensures Adds(dk[..i + 1], k) == Adds(dk[..i], k) + if dk[i].key == Some(k) then [Entry(dk[i].row, dk[i].w)] else [] {
        AddsPush(dk[..i], dk[i], k);
      }
      if dk[i].key.Some? {
        var k := dk[i].key.value;
        grouped := grouped[k := At(grouped, k) + [Entry(dk[i].row, dk[i].w)]];
      }
    }
    assert dk[..|dk|] == dk;
  }

  // Buckets of keys outside `todo` are merged, the others untouched.
  ghost predicate HalfMerged(before: Index, grouped: map<Bytes, Bucket>, todo: set<Bytes>, idx: Index) {
    && CleanIndex(idx)
    && forall k {:trigger At(idx, k)} ::
         if k in grouped && k !in todo then Merged(At(before, k), grouped[k], At(idx, k)) else At(idx, k) == At(before, k)
  }

  method MergeKey(ghost before: Index, grouped: map<Bytes, Bucket>, ghost todo: set<Bytes>, idx0: Index, k: Bytes)
    returns (idx: Index)
    requires CleanIndex(before) && HalfMerged(before, grouped, todo, idx0) && k in grouped && k in todo
    requires forall i :: 0 <= i < |grouped[k]| ==> grouped[k][i].weight != 0
    ensures HalfMerged(before, grouped, todo - {k}, idx)
  {
    var bucket := At(idx0, k);
    assert At(idx0, k) == At(before, k);
    AtClean(before, k);
    if |bucket| + |grouped[k]| <= 16 {
      bucket := MergeLinear(bucket, grouped[k]);
    } else {
      bucket := MergeIndexed(bucket, grouped[k]);
    }
    PutAt(idx0, k, bucket);
    idx := Put(idx0, k, bucket);
  }

  method IntegrateGrouped(idx0: Index, dk: seq<DeltaRow>) returns (idx: Index)
    requires CleanIndex(idx0) && forall d :: d in dk ==> d.w != 0
    ensures Integrated(idx0, dk, idx)
  {
    var grouped := Group(dk);
    idx := idx0;
    var todo := grouped.Keys;
    while todo != {}
      invariant todo <= grouped.Keys && HalfMerged(idx0, grouped, todo, idx)
      decreases todo
    {
      var k :| k in todo;
      assert grouped[k] == At(grouped, k);
      AddsNonzero(dk, k);
      idx := MergeKey(idx0, grouped, todo, idx, k);
      todo := todo - {k};
    }
    GroupsMerged(idx0, dk, grouped, idx);
  }

  lemma GroupsMerged(before: Index, dk: seq<DeltaRow>, grouped: map<Bytes, Bucket>, idx: Index)
    requires HalfMerged(before, grouped, {}, idx) && forall k :: At(grouped, k) == Adds(dk, k)
    ensures Integrated(before, dk, idx)
  {
    forall k, row ensures Weight(At(idx, k), row) == Weight(At(before, k), row) + Weight(Adds(dk, k), row) {
      assert At(grouped, k) == Adds(dk, k);
      if k in grouped {
        assert Merged(At(before, k), grouped[k], At(idx, k));
      }
    }
  }

  // ---- integrate_packed ----

  method TotalRows(wmap0: ZSet<Bytes>, dk: seq<DeltaRow>) returns (wmap: ZSet<Bytes>)
    requires Normal(wmap0)
    ensures Totalled(wmap0, dk, wmap)
  {
    wmap := wmap0;
    assert forall row :: RowTotal(dk[..0], row) == 0;
    for i := 0 to |dk|
      invariant Totalled(wmap0, dk[..i], wmap)
    {
      assert dk[..i + 1][..i] == dk[..i];
      wmap := Insert(wmap, dk[i].row, dk[i].w);
    }
    assert dk[..|dk|] == dk;
  }

  // Up to 16 rows are merged one by one, more are grouped by key first; the
  // outcome is the same pointwise sum with zeros removed.
  method IntegratePacked(idx0: Index, wmap0: ZSet<Bytes>, dk: seq<DeltaRow>, trackWeights: bool)
    returns (idx: Index, wmap: ZSet<Bytes>)
    requires CleanIndex(idx0) && Normal(wmap0) && forall d :: d in dk ==> d.w != 0
    ensures Integrated(idx0, dk, idx)
    ensures if trackWeights then Totalled(wmap0, dk, wmap) else wmap == wmap0
  {
    wmap := wmap0;
    if trackWeights {
      wmap := TotalRows(wmap0, dk);
    }
    if |dk| <= 16 {
      idx := IntegrateRows(idx0, dk);
    } else {
      idx := IntegrateGrouped(idx0, dk);
    }
  }

  // Whatever path was taken, the buckets hold the same entries.
  lemma PathsAgree(before: Index, dk: seq<DeltaRow>, a: Index, b: Index)
    requires Integrated(before, dk, a) && Integrated(before, dk, b)
    ensures a.Keys == b.Keys
    ensures forall k, e :: k in a ==> (e in a[k] <==> e in b[k])
  {
    forall k ensures k in a <==> k in b
             ensures k in a && k in b ==> forall e :: e in a[k] <==> e in b[k]
    {
      AtClean(a, k);
      AtClean(b, k);
      forall row ensures Weight(At(a, k), row) == Weight(At(b, k), row) {
      }
      CleanDetermined(At(a, k), At(b, k));
      assert k in a ==> a[k][0] in At(b, k);
      assert k in b ==> b[k][0] in At(a, k);
    }
  }
}
