// The streamed initial fill of an arrangement: rows into flat entries, then
// one sort and one pass that builds the directory around the row arena
// (include/dbsp_plan_join.hpp).
module BulkFill {
  import opened ZSets
  import opened Rows
  import opened Buckets
  import opened PackedIntegrate
  import opened FlatPacked
  import opened FlatBuild
  import opened Sorting

  datatype Ent = Ent(keyId: nat, rowOff: nat, rowLen: nat, w: int)

  datatype Bulk = Bulk(keyIds: map<Bytes, nat>, keyBytes: seq<Bytes>, entries: seq<Ent>, arena: Bytes)

  const EMPTY: Bulk := Bulk(map[], [], [], [])

  // The row of an entry, and the entry as a weighted row.
  function RowOf(arena: Bytes, e: Ent): Bytes {
    SafeText(arena, e.rowOff, e.rowLen)
  }

  function AsEntry(arena: Bytes, e: Ent): Entry {
    Entry(RowOf(arena, e), e.w)
  }

  function AsEntries(arena: Bytes, es: seq<Ent>): (b: Bucket)
    ensures |b| == |es| && forall i :: 0 <= i < |es| ==> b[i] == AsEntry(arena, es[i])
  {
    if es == [] then [] else AsEntries(arena, es[..|es| - 1]) + [AsEntry(arena, es[|es| - 1])]
  }

  // Key ids name the distinct keys seen; entries stay inside the arena.
  ghost predicate BulkOk(b: Bulk) {
    && (forall i :: 0 <= i < |b.keyBytes| ==> b.keyBytes[i] in b.keyIds && b.keyIds[b.keyBytes[i]] == i)
    && (forall k :: k in b.keyIds ==> b.keyIds[k] < |b.keyBytes| && b.keyBytes[b.keyIds[k]] == k)
    && forall i :: 0 <= i < |b.entries| ==>
         b.entries[i].keyId < |b.keyBytes| && b.entries[i].rowOff + b.entries[i].rowLen <= |b.arena|
  }

  function KeyShare(arena: Bytes, e: Ent, id: nat, row: Bytes): int {
    if e.keyId == id then Share(AsEntry(arena, e), row) else 0
  }

  // The weight a list of entries gives to a row under one key id.
  function KeyWeight(arena: Bytes, es: seq<Ent>, id: nat, row: Bytes): int {
    if es == [] then 0 else KeyWeight(arena, es[..|es| - 1], id, row) + KeyShare(arena, es[|es| - 1], id, row)
  }

  // The weight the stream has given to a row under a key.
  function StreamWeight(b: Bulk, k: Bytes, row: Bytes): int {
    if k in b.keyIds then KeyWeight(b.arena, b.entries, b.keyIds[k], row) else 0
  }

  lemma KeyWeightPush(arena: Bytes, es: seq<Ent>, e: Ent, id: nat, row: Bytes)
    ensures KeyWeight(arena, es + [e], id, row) == KeyWeight(arena, es, id, row) + KeyShare(arena, e, id, row)
  {
    assert (es + [e])[..|es|] == es;
  }

  lemma {:induction false} NoEntries(arena: Bytes, es: seq<Ent>, id: nat, row: Bytes)
    requires forall i :: 0 <= i < |es| ==> es[i].keyId != id
    ensures KeyWeight(arena, es, id, row) == 0
  {
    if es != [] {
      NoEntries(arena, es[..|es| - 1], id, row);
    }
  }

  // Growing the arena does not disturb entries inside it.
  lemma {:induction false} KeyWeightGrows(arena: Bytes, more: Bytes, es: seq<Ent>, id: nat, row: Bytes)
    requires forall i :: 0 <= i < |es| ==> es[i].rowOff + es[i].rowLen <= |arena|
    ensures KeyWeight(arena + more, es, id, row) == KeyWeight(arena, es, id, row)
  {
    if es != [] {
      var e := es[|es| - 1];
      KeyWeightGrows(arena, more, es[..|es| - 1], id, row);
      TextGrows(arena, more, e.rowOff, e.rowLen);
    }
  }

  // One streamed row.
  method Stream(b0: Bulk, kb: Bytes, rb: Bytes, w: int) returns (b: Bulk)
    requires BulkOk(b0)
    ensures BulkOk(b)
    ensures forall k, row {:trigger StreamWeight(b, k, row)} ::
              StreamWeight(b, k, row) == StreamWeight(b0, k, row) + if k == kb && row == rb then w else 0
  {
    b := b0;
    if kb !in b.keyIds {
      b := b.(keyIds := b.keyIds[kb := |b.keyBytes|], keyBytes := b.keyBytes + [kb]);
    }
    var e := Ent(b.keyIds[kb], |b.arena|, |rb|, w);
    b := b.(arena := b.arena + rb, entries := b.entries + [e]);
    forall k, row ensures StreamWeight(b, k, row) == StreamWeight(b0, k, row) + if k == kb && row == rb then w else 0 {
      if k in b.keyIds {
        var id := b.keyIds[k];
        KeyWeightGrows(b0.arena, rb, b0.entries, id, row);
        KeyWeightPush(b.arena, b0.entries, e, id, row);
        assert RowOf(b.arena, e) == rb;
        if k !in b0.keyIds {
          NoEntries(b0.arena, b0.entries, id, row);
        }
      }
    }
  }

  // ---- sorting and ranges ----

  function ByIdThenRow(arena: Bytes): (Ent, Ent) -> bool {
    (x: Ent, y: Ent) => x.keyId < y.keyId || (x.keyId == y.keyId && Less(RowOf(arena, x), RowOf(arena, y)))
  }

  lemma ByIdThenRowIsWeak(arena: Bytes)
    ensures WeakOrder(ByIdThenRow(arena))
  {
    forall x: Ent, y: Ent, z: Ent
      ensures ByIdThenRow(arena)(x, y) ==> !ByIdThenRow(arena)(y, x)
      ensures ByIdThenRow(arena)(x, y) && !ByIdThenRow(arena)(z, y) ==> ByIdThenRow(arena)(x, z)
    {
      LessIsWeak(RowOf(arena, x), RowOf(arena, y), RowOf(arena, z));
    }
  }

  // Per-key weights do not depend on the order of the entries.
  lemma {:induction false} WeightPermuted(arena: Bytes, a: seq<Ent>, b: seq<Ent>, id: nat, row: Bytes)
    requires multiset(a) == multiset(b)
    ensures KeyWeight(arena, a, id, row) == KeyWeight(arena, b, id, row)
  {
    if a == [] {
      assert |b| == |multiset(b)| == |multiset(a)|;
    } else {
      var n := |a| - 1;
      assert a == a[..n] + [a[n]];
      assert a[n] in multiset(b);
      var j :| 0 <= j < |b| && b[j] == a[n];
      TakenOut(a, b, j);
      WeightPermuted(arena, a[..n], b[..j] + b[j + 1..], id, row);
      KeyWeightTakeOut(arena, b, j, id, row);
    }
  }

  lemma TakenOut(a: seq<Ent>, b: seq<Ent>, j: nat)
    requires a != [] && j < |b| && b[j] == a[|a| - 1] && multiset(a) == multiset(b)
    ensures multiset(a[..|a| - 1]) == multiset(b[..j] + b[j + 1..])
  {
    assert a == a[..|a| - 1] + [b[j]];
    assert b == (b[..j] + [b[j]]) + b[j + 1..];
    assert multiset(b) == multiset(b[..j]) + multiset{b[j]} + multiset(b[j + 1..]);
    assert multiset(b[..j] + b[j + 1..]) == multiset(b[..j]) + multiset(b[j + 1..]);
    assert multiset(a) == multiset(a[..|a| - 1]) + multiset{b[j]};
    assert multiset(a[..|a| - 1]) == multiset(a) - multiset{b[j]};
  }

  lemma {:induction false} KeyWeightTakeOut(arena: Bytes, es: seq<Ent>, j: nat, id: nat, row: Bytes)
    requires j < |es|
    ensures KeyWeight(arena, es, id, row) == KeyWeight(arena, es[..j] + es[j + 1..], id, row) + KeyShare(arena, es[j], id, row)
  {
    var n := |es| - 1;
    if j == n {
      assert es[..j] + es[j + 1..] == es[..n];
    } else {
      KeyWeightTakeOut(arena, es[..n], j, id, row);
      var rest := es[..n][..j] + es[..n][j + 1..];
      assert es[..j] + es[j + 1..] == rest + [es[n]];
      KeyWeightPush(arena, rest, es[n], id, row);
    }
  }

  // The entries of key id, once sorted, are those of range[id].
  ghost predicate RangeOf(sorted: seq<Ent>, id: nat, lo: nat, hi: nat) {
    && lo <= hi <= |sorted|
    && forall i :: 0 <= i < |sorted| ==> (lo <= i < hi <==> sorted[i].keyId == id)
  }

  // The ranges of the keys met so far; the others are still (0, 0).
  ghost predicate RangesUpTo(sorted: seq<Ent>, i: nat, range: seq<(nat, nat)>) {
    && i <= |sorted|
    && forall id {:trigger range[id]} :: 0 <= id < |range| ==>
         range[id].0 <= range[id].1 <= i && forall j :: 0 <= j < i ==> (range[id].0 <= j < range[id].1 <==> sorted[j].keyId == id)
  }

  // End of the run of equal key ids starting at i.
  method KeyRunEnd(sorted: seq<Ent>, i: nat) returns (j: nat)
    requires i < |sorted|
    ensures i < j <= |sorted| && forall x :: i <= x < j ==> sorted[x].keyId == sorted[i].keyId
    ensures j < |sorted| ==> sorted[j].keyId != sorted[i].keyId
  {
    j := i + 1;
    while j < |sorted| && sorted[j].keyId == sorted[i].keyId
      invariant i < j <= |sorted| && forall x :: i <= x < j ==> sorted[x].keyId == sorted[i].keyId
    {
      j := j + 1;
    }
  }

  method Ranges(sorted: seq<Ent>, n: nat) returns (range: seq<(nat, nat)>)
    requires forall i :: 0 <= i < |sorted| ==> sorted[i].keyId < n
    requires forall i, j :: 0 <= i < j < |sorted| ==> sorted[i].keyId <= sorted[j].keyId
    ensures |range| == n && forall id :: 0 <= id < n ==> RangeOf(sorted, id, range[id].0, range[id].1)
  {
    range := seq(n, _ => (0, 0));
    var i := 0;
    while i < |sorted|
      invariant |range| == n && RangesUpTo(sorted, i, range)
      invariant 0 < i < |sorted| ==> sorted[i - 1].keyId != sorted[i].keyId
    {
      var j := KeyRunEnd(sorted, i);
      NewRange(sorted, i, j, range);
      range := range[sorted[i].keyId := (i, j)];
      i := j;
    }
  }

  lemma NewRange(sorted: seq<Ent>, i: nat, j: nat, range: seq<(nat, nat)>)
    requires RangesUpTo(sorted, i, range) && i < j <= |sorted| && sorted[i].keyId < |range|
    requires forall a, b :: 0 <= a < b < |sorted| ==> sorted[a].keyId <= sorted[b].keyId
    requires i > 0 ==> sorted[i - 1].keyId != sorted[i].keyId
    requires forall x :: i <= x < j ==> sorted[x].keyId == sorted[i].keyId
    ensures RangesUpTo(sorted, j, range[sorted[i].keyId := (i, j)])
  {
    forall x | 0 <= x < i ensures sorted[x].keyId != sorted[i].keyId {
      assert sorted[x].keyId <= sorted[i - 1].keyId;
    }
  }

  // ---- merging equal rows ----

  // Rows are non-decreasing in byte order.
  ghost predicate RowsSorted(arena: Bytes, es: seq<Ent>) {
    forall i, j :: 0 <= i < j < |es| ==> !Less(RowOf(arena, es[j]), RowOf(arena, es[i]))
  }

  ghost predicate EntsInArena(arena: Bytes, es: seq<Ent>) {
    forall i :: 0 <= i < |es| ==> es[i].rowOff + es[i].rowLen <= |arena|
  }

  // Entries i to j are one row, and it weighs w in all.
  ghost predicate RunTotal(arena: Bytes, es: seq<Ent>, i: nat, j: nat, w: int) {
    && i < j <= |es| && (forall x :: i <= x < j ==> RowOf(arena, es[x]) == RowOf(arena, es[i]))
    && forall row {:trigger Weight(AsEntries(arena, es[..j]), row)} ::
         Weight(AsEntries(arena, es[..j]), row)
         == Weight(AsEntries(arena, es[..i]), row) + if row == RowOf(arena, es[i]) then w else 0
  }

  lemma RunGrows(arena: Bytes, es: seq<Ent>, i: nat, j: nat, w: int)
    requires RunTotal(arena, es, i, j, w) && j < |es| && RowOf(arena, es[j]) == RowOf(arena, es[i])
    ensures RunTotal(arena, es, i, j + 1, w + es[j].w)
  {
    EntriesPush(arena, es, j);
    forall row ensures Weight(AsEntries(arena, es[..j + 1]), row)
                       == Weight(AsEntries(arena, es[..i]), row) + if row == RowOf(arena, es[i]) then w + es[j].w else 0
    {
      assert Weight(AsEntries(arena, es[..j + 1]), row)
          == Weight(AsEntries(arena, es[..j]), row) + Share(AsEntry(arena, es[j]), row);
    }
  }

  // Sum of the run of rows equal to es[i].
  method RowRun(arena: Bytes, es: seq<Ent>, i: nat) returns (j: nat, w: int)
    requires i < |es|
    ensures RunTotal(arena, es, i, j, w) && (j < |es| ==> RowOf(arena, es[j]) != RowOf(arena, es[i]))
  {
    j, w := i + 1, es[i].w;
    EntriesPush(arena, es, i);
    while j < |es| && RowOf(arena, es[j]) == RowOf(arena, es[i])
      invariant RunTotal(arena, es, i, j, w)
    {
      RunGrows(arena, es, i, j, w);
      j, w := j + 1, w + es[j].w;
    }
  }

  lemma EntriesPush(arena: Bytes, es: seq<Ent>, j: nat)
    requires j < |es|
    ensures forall row {:trigger Weight(AsEntries(arena, es[..j + 1]), row)} ::
              Weight(AsEntries(arena, es[..j + 1]), row)
              == Weight(AsEntries(arena, es[..j]), row) + Share(AsEntry(arena, es[j]), row)
  {
    assert es[..j + 1][..j] == es[..j];
    forall row ensures Weight(AsEntries(arena, es[..j + 1]), row)
                       == Weight(AsEntries(arena, es[..j]), row) + Share(AsEntry(arena, es[j]), row)
    {
      WeightPush(AsEntries(arena, es[..j]), AsEntry(arena, es[j]), row);
    }
  }

  // The bucket built from the first i entries.
  ghost predicate MergedRun(arena: Bytes, es: seq<Ent>, i: nat, bs: seq<BucketEnt>) {
    && i <= |es|
    && (forall x :: 0 <= x < |bs| ==> RowInArena(arena, bs[x]))
    && Clean(Decode(arena, bs))
    && (forall x, y :: 0 <= x < |bs| && i <= y < |es| ==> Decode(arena, bs)[x].row != RowOf(arena, es[y]))
    && forall row {:trigger Weight(Decode(arena, bs), row)} ::
         Weight(Decode(arena, bs), row) == Weight(AsEntries(arena, es[..i]), row)
  }

  lemma RowsApart(arena: Bytes, es: seq<Ent>, i: nat, j: nat)
    requires RowsSorted(arena, es) && i < j <= |es|
    requires forall x :: i <= x < j ==> RowOf(arena, es[x]) == RowOf(arena, es[i])
    requires j < |es| ==> RowOf(arena, es[j]) != RowOf(arena, es[i])
    ensures forall y :: j <= y < |es| ==> RowOf(arena, es[y]) != RowOf(arena, es[i])
  {
    forall y | j <= y < |es| ensures RowOf(arena, es[y]) != RowOf(arena, es[i]) {
      CmpOrder(RowOf(arena, es[i]), RowOf(arena, es[j]));
      CmpOrder(RowOf(arena, es[j]), RowOf(arena, es[i]));
      assert y == j || !Less(RowOf(arena, es[y]), RowOf(arena, es[j]));
    }
  }

  // Append the merged run unless it sums to 0.
  method PushRun(arena: Bytes, es: seq<Ent>, i: nat, j: nat, w: int, bs0: seq<BucketEnt>) returns (bs: seq<BucketEnt>)
    requires RowsSorted(arena, es) && EntsInArena(arena, es) && MergedRun(arena, es, i, bs0) && RunTotal(arena, es, i, j, w)
    requires j < |es| ==> RowOf(arena, es[j]) != RowOf(arena, es[i])
    ensures MergedRun(arena, es, j, bs)
  {
    RowsApart(arena, es, i, j);
    if w == 0 {
      bs := bs0;
      RunMerged(arena, es, i, j, w, Decode(arena, bs0), bs);
    } else {
      bs := bs0 + [BucketEnt(es[i].rowOff, es[i].rowLen, w)];
      RunPushed(arena, bs0, bs[|bs0|], bs);
      RunMerged(arena, es, i, j, w, Decode(arena, bs0), bs);
    }
  }

  // What the bucket holds before the run, as a plain bucket.
  ghost predicate RowsBefore(arena: Bytes, es: seq<Ent>, i: nat, rows: Bucket) {
    && i <= |es|
    && (forall x, y :: 0 <= x < |rows| && i <= y < |es| ==> rows[x].row != RowOf(arena, es[y]))
    && forall row {:trigger Weight(rows, row)} :: Weight(rows, row) == Weight(AsEntries(arena, es[..i]), row)
  }

  lemma RunMerged(arena: Bytes, es: seq<Ent>, i: nat, j: nat, w: int, rows: Bucket, bs: seq<BucketEnt>)
    requires RunTotal(arena, es, i, j, w) && RowsBefore(arena, es, i, rows)
    requires forall y :: j <= y < |es| ==> RowOf(arena, es[y]) != RowOf(arena, es[i])
    requires (forall x :: 0 <= x < |bs| ==> RowInArena(arena, bs[x])) && Clean(Decode(arena, bs))
    requires Decode(arena, bs) == if w == 0 then rows else rows + [Entry(RowOf(arena, es[i]), w)]
    ensures MergedRun(arena, es, j, bs)
  {
    RunApart(arena, es, i, j, w, rows, Decode(arena, bs));
    RunWeights(arena, es, i, j, w, rows, Decode(arena, bs));
  }

  lemma RunApart(arena: Bytes, es: seq<Ent>, i: nat, j: nat, w: int, rows: Bucket, all: Bucket)
    requires i < j <= |es| && forall x, y :: 0 <= x < |rows| && i <= y < |es| ==> rows[x].row != RowOf(arena, es[y])
    requires forall y :: j <= y < |es| ==> RowOf(arena, es[y]) != RowOf(arena, es[i])
    requires all == if w == 0 then rows else rows + [Entry(RowOf(arena, es[i]), w)]
    ensures forall x, y :: 0 <= x < |all| && j <= y < |es| ==> all[x].row != RowOf(arena, es[y])
  {
  }

  lemma RunWeights(arena: Bytes, es: seq<Ent>, i: nat, j: nat, w: int, rows: Bucket, all: Bucket)
    requires RunTotal(arena, es, i, j, w)
    requires forall row {:trigger Weight(rows, row)} :: Weight(rows, row) == Weight(AsEntries(arena, es[..i]), row)
    requires all == if w == 0 then rows else rows + [Entry(RowOf(arena, es[i]), w)]
    ensures forall row {:trigger Weight(all, row)} :: Weight(all, row) == Weight(AsEntries(arena, es[..j]), row)
  {
    forall row ensures Weight(all, row) == Weight(AsEntries(arena, es[..j]), row) {
      WeightPush(rows, Entry(RowOf(arena, es[i]), w), row);
      assert Weight(rows, row) == Weight(AsEntries(arena, es[..i]), row);
    }
  }

  lemma RunPushed(arena: Bytes, bs0: seq<BucketEnt>, be: BucketEnt, bs: seq<BucketEnt>)
    requires forall x :: 0 <= x < |bs0| ==> RowInArena(arena, bs0[x])
    requires RowInArena(arena, be) && be.weight != 0 && bs == bs0 + [be]
    requires Clean(Decode(arena, bs0))
    requires forall x :: 0 <= x < |bs0| ==> Decode(arena, bs0)[x].row != EntryAt(arena, be).row
    ensures forall x :: 0 <= x < |bs| ==> RowInArena(arena, bs[x])
    ensures Decode(arena, bs) == Decode(arena, bs0) + [EntryAt(arena, be)]
    ensures Clean(Decode(arena, bs))
    ensures forall row {:trigger Weight(Decode(arena, bs), row)} ::
              Weight(Decode(arena, bs), row) == Weight(Decode(arena, bs0), row) + Share(EntryAt(arena, be), row)
  {
    assert bs[..|bs0|] == bs0;
    forall row ensures Weight(Decode(arena, bs0) + [EntryAt(arena, be)], row)
                       == Weight(Decode(arena, bs0), row) + Share(EntryAt(arena, be), row)
    {
      WeightPush(Decode(arena, bs0), EntryAt(arena, be), row);
    }
  }

  method MergeRows(arena: Bytes, es: seq<Ent>) returns (bs: seq<BucketEnt>)
    requires RowsSorted(arena, es) && EntsInArena(arena, es)
    ensures MergedRun(arena, es, |es|, bs)
  {
    bs := [];
    var i := 0;
    while i < |es|
      invariant MergedRun(arena, es, i, bs)
      decreases |es| - i
    {
      var j, w := RowRun(arena, es, i);
      bs := PushRun(arena, es, i, j, w, bs);
      i := j;
    }
  }

  // ---- the directory ----

  function NameOf(b: Bulk, id: int): Bytes {
    if 0 <= id < |b.keyBytes| then b.keyBytes[id] else []
  }

  function ByName(b: Bulk): (int, int) -> bool {
    (x: int, y: int) => Less(NameOf(b, x), NameOf(b, y))
  }

  lemma ByNameIsWeak(b: Bulk)
    ensures WeakOrder(ByName(b))
  {
    forall x: int, y: int, z: int
      ensures ByName(b)(x, y) ==> !ByName(b)(y, x)
      ensures ByName(b)(x, y) && !ByName(b)(z, y) ==> ByName(b)(x, z)
    {
      LessIsWeak(NameOf(b, x), NameOf(b, y), NameOf(b, z));
    }
  }

  // All key ids, once each, in strict byte order of their keys.
  ghost predicate KeyOrder(b: Bulk, order: seq<int>) {
    && (forall id :: id in order <==> 0 <= id < |b.keyBytes|)
    && forall x, y :: 0 <= x < y < |order| ==> Less(NameOf(b, order[x]), NameOf(b, order[y]))
  }

  method SortKeys(b: Bulk) returns (order: seq<int>)
    requires BulkOk(b)
    ensures KeyOrder(b, order)
  {
    var ids := seq(|b.keyBytes|, i => i);
    order := Sort(ids, ByName(b));
    ByNameIsWeak(b);
    SortSorted(ids, ByName(b));
    SortedIsKeyOrder(b, ids, order);
  }

  lemma SortedIsKeyOrder(b: Bulk, ids: seq<int>, order: seq<int>)
    requires BulkOk(b) && |ids| == |b.keyBytes| && forall i :: 0 <= i < |ids| ==> ids[i] == i
    requires Sorted(order, ByName(b)) && multiset(order) == multiset(ids)
    ensures KeyOrder(b, order)
  {
    forall id ensures id in order <==> 0 <= id < |b.keyBytes| {
      assert 0 <= id < |b.keyBytes| ==> ids[id] == id;
      assert id in order <==> id in multiset(ids);
    }
    forall x, y | 0 <= x < y < |order| ensures Less(NameOf(b, order[x]), NameOf(b, order[y])) {
      assert order[x] in order && order[y] in order;
      assert order[x] != order[y] by {
        if order[x] == order[y] {
          TwiceInBoth(order, ids, x, y);
        }
      }
      CmpOrder(NameOf(b, order[x]), NameOf(b, order[y]));
      CmpOrder(NameOf(b, order[y]), NameOf(b, order[x]));
      assert !ByName(b)(order[y], order[x]);
    }
  }

  // The sorted entries give a key the weights of its range.
  lemma {:induction false} RangeWeight(arena: Bytes, sorted: seq<Ent>, id: nat, lo: nat, hi: nat, m: nat, row: Bytes)
    requires RangeOf(sorted, id, lo, hi) && m <= |sorted|
    ensures KeyWeight(arena, sorted[..m], id, row) == Weight(AsEntries(arena, InRange(sorted, lo, hi, m)), row)
  {
    if m > 0 {
      RangeWeight(arena, sorted, id, lo, hi, m - 1, row);
      RangeWeightStep(arena, sorted, id, lo, hi, m - 1, row);
    }
  }

  lemma RangeWeightStep(arena: Bytes, sorted: seq<Ent>, id: nat, lo: nat, hi: nat, m: nat, row: Bytes)
    requires lo <= hi <= |sorted| && m < |sorted| && (lo <= m < hi <==> sorted[m].keyId == id)
    ensures KeyWeight(arena, sorted[..m + 1], id, row) == KeyWeight(arena, sorted[..m], id, row) + KeyShare(arena, sorted[m], id, row)
    ensures Weight(AsEntries(arena, InRange(sorted, lo, hi, m + 1)), row)
         == Weight(AsEntries(arena, InRange(sorted, lo, hi, m)), row) + KeyShare(arena, sorted[m], id, row)
  {
    assert sorted[..m + 1] == sorted[..m] + [sorted[m]];
    KeyWeightPush(arena, sorted[..m], sorted[m], id, row);
    InRangeStep(sorted, lo, hi, m);
    AsEntriesPush(arena, InRange(sorted, lo, hi, m), sorted[m], row);
  }

  lemma InRangeStep(sorted: seq<Ent>, lo: nat, hi: nat, m: nat)
    requires lo <= hi <= |sorted| && m < |sorted|
    ensures InRange(sorted, lo, hi, m + 1)
         == if lo <= m < hi then InRange(sorted, lo, hi, m) + [sorted[m]] else InRange(sorted, lo, hi, m)
  {
  }

  // What the first m entries have of the range.
  function InRange(sorted: seq<Ent>, lo: nat, hi: nat, m: nat): seq<Ent>
    requires lo <= hi <= |sorted| && m <= |sorted|
  {
    if m <= lo then [] else if m <= hi then sorted[lo..m] else sorted[lo..hi]
  }

  lemma AsEntriesPush(arena: Bytes, es: seq<Ent>, e: Ent, row: Bytes)
    ensures Weight(AsEntries(arena, es + [e]), row) == Weight(AsEntries(arena, es), row) + Share(AsEntry(arena, e), row)
  {
    assert (es + [e])[..|es|] == es;
    WeightPush(AsEntries(arena, es), AsEntry(arena, e), row);
  }

  // ids in `done` have their bucket in f; every key in f is below the names
  // still to come.
  ghost predicate Filling(b: Bulk, f: Flat, order: seq<int>, x: nat) {
    && x <= |order| && b.arena <= f.arena && FlatOk(f)
    && (forall i, y :: 0 <= i < |f.dir| && x <= y < |order| ==> Less(Key(f, f.dir[i]), NameOf(b, order[y])))
    && (forall k {:trigger Lookup(f, k)} :: (k !in b.keyIds || b.keyIds[k] !in order[..x]) ==> Lookup(f, k) == [])
    && forall k, row {:trigger Weight(Lookup(f, k), row)} ::
         k in b.keyIds && b.keyIds[k] in order[..x] ==> Weight(Lookup(f, k), row) == StreamWeight(b, k, row)
  }

  // Append one key's merged bucket behind all smaller keys.
  method AddSortedKey(f: Flat, kb: Bytes, bs: seq<BucketEnt>) returns (g: Flat)
    requires FlatOk(f) && forall i :: 0 <= i < |f.dir| ==> Less(Key(f, f.dir[i]), kb)
    requires forall i :: 0 <= i < |bs| ==> RowInArena(f.arena, bs[i])
    requires Clean(Decode(f.arena, bs))
    ensures FlatOk(g) && f.arena <= g.arena
    ensures forall k :: Lookup(g, k) == if k == kb then Decode(f.arena, bs) else Lookup(f, k)
    ensures forall i :: 0 <= i < |g.dir| ==> Key(g, g.dir[i]) == kb || exists j :: 0 <= j < |f.dir| && Key(f, f.dir[j]) == Key(g, g.dir[i])
  {
    Absent(f, kb, |f.dir|);
    if bs == [] {
      return f;
    }
    var e := DirEnt(|f.arena|, |kb|, |f.buckets|, |bs|);
    g := Flat(f.arena + kb, f.dir + [e], f.buckets + bs);
    KeyAppended(f, kb, bs, e, g);
  }

  lemma {:induction false} KeyAppended(f: Flat, kb: Bytes, bs: seq<BucketEnt>, e: DirEnt, g: Flat)
    requires FlatOk(f) && forall i :: 0 <= i < |f.dir| ==> Less(Key(f, f.dir[i]), kb)
    requires forall i :: 0 <= i < |bs| ==> RowInArena(f.arena, bs[i])
    requires bs != [] && Clean(Decode(f.arena, bs)) && Lookup(f, kb) == []
    requires e == DirEnt(|f.arena|, |kb|, |f.buckets|, |bs|)
    requires g == Flat(f.arena + kb, f.dir + [e], f.buckets + bs)
    ensures FlatOk(g)
    ensures forall k :: Lookup(g, k) == if k == kb then Decode(f.arena, bs) else Lookup(f, k)
    ensures forall i :: 0 <= i < |f.dir| ==> Key(g, g.dir[i]) == Key(f, f.dir[i])
    ensures Key(g, g.dir[|f.dir|]) == kb
  {
    assert g.buckets[e.bucketOff..e.bucketOff + e.bucketN] == bs;
    assert Text(g.arena, e.keyOff, e.keyLen) == kb;
    DecodeGrows(f.arena, kb, bs);
    assert EntInBounds(g, e) && BucketOf(g, e) == Decode(f.arena, bs);
    Appended(f, g, e);
    forall i | 0 <= i < |f.dir| ensures Key(g, g.dir[i]) == Key(f, f.dir[i]) {
      EntryGrows(f, g, f.dir[i]);
    }
  }

  // What finish_initial_fill knows before it builds the directory.
  ghost predicate Prepared(b: Bulk, sorted: seq<Ent>, range: seq<(nat, nat)>, order: seq<int>) {
    && BulkOk(b) && KeyOrder(b, order) && multiset(sorted) == multiset(b.entries)
    && EntsInArena(b.arena, sorted)
    && (forall i, j :: 0 <= i < j < |sorted| ==> !ByIdThenRow(b.arena)(sorted[j], sorted[i]))
    && |range| == |b.keyBytes|
    && forall id :: 0 <= id < |range| ==> RangeOf(sorted, id, range[id].0, range[id].1)
  }

  // The merged bucket of one key id.
  method KeyBucket(b: Bulk, sorted: seq<Ent>, range: seq<(nat, nat)>, ghost order: seq<int>, id: nat)
    returns (bs: seq<BucketEnt>)
    requires Prepared(b, sorted, range, order) && id < |b.keyBytes|
    ensures forall x :: 0 <= x < |bs| ==> RowInArena(b.arena, bs[x])
    ensures Clean(Decode(b.arena, bs))
    ensures forall row {:trigger Weight(Decode(b.arena, bs), row)} ::
              Weight(Decode(b.arena, bs), row) == StreamWeight(b, b.keyBytes[id], row)
  {
    var lo, hi := range[id].0, range[id].1;
    assert RangeOf(sorted, id, lo, hi);
    var es := sorted[lo..hi];
    RangeRowsSorted(b, sorted, id, lo, hi);
    bs := MergeRows(b.arena, es);
    forall row ensures Weight(Decode(b.arena, bs), row) == StreamWeight(b, b.keyBytes[id], row) {
      RunsWeigh(b.arena, es, bs, row);
      KeyRangeWeight(b, sorted, range, order, id, row);
    }
  }

  lemma RunsWeigh(arena: Bytes, es: seq<Ent>, bs: seq<BucketEnt>, row: Bytes)
    requires MergedRun(arena, es, |es|, bs)
    ensures Weight(Decode(arena, bs), row) == Weight(AsEntries(arena, es), row)
  {
    assert es[..|es|] == es;
  }

  // A key's range holds exactly what was streamed for it.
  lemma KeyRangeWeight(b: Bulk, sorted: seq<Ent>, range: seq<(nat, nat)>, order: seq<int>, id: nat, row: Bytes)
    requires Prepared(b, sorted, range, order) && id < |b.keyBytes|
    ensures range[id].0 <= range[id].1 <= |sorted|
    ensures Weight(AsEntries(b.arena, sorted[range[id].0..range[id].1]), row) == StreamWeight(b, b.keyBytes[id], row)
  {
    var lo, hi := range[id].0, range[id].1;
    assert RangeOf(sorted, id, lo, hi);
    RangeWeight(b.arena, sorted, id, lo, hi, |sorted|, row);
    assert sorted[..|sorted|] == sorted;
    assert InRange(sorted, lo, hi, |sorted|) == sorted[lo..hi];
    WeightPermuted(b.arena, sorted, b.entries, id, row);
  }

  lemma RangeRowsSorted(b: Bulk, sorted: seq<Ent>, id: nat, lo: nat, hi: nat)
    requires RangeOf(sorted, id, lo, hi) && EntsInArena(b.arena, sorted)
    requires forall i, j :: 0 <= i < j < |sorted| ==> !ByIdThenRow(b.arena)(sorted[j], sorted[i])
    ensures RowsSorted(b.arena, sorted[lo..hi]) && EntsInArena(b.arena, sorted[lo..hi])
  {
    forall i, j | 0 <= i < j < hi - lo ensures !Less(RowOf(b.arena, sorted[lo..hi][j]), RowOf(b.arena, sorted[lo..hi][i])) {
      assert !ByIdThenRow(b.arena)(sorted[lo + j], sorted[lo + i]);
    }
  }

  method FillNext(b: Bulk, sorted: seq<Ent>, range: seq<(nat, nat)>, order: seq<int>, x: nat, f: Flat) returns (g: Flat)
    requires Prepared(b, sorted, range, order) && x < |order| && Filling(b, f, order, x)
    ensures Filling(b, g, order, x + 1)
  {
    assert order[x] in order;
    var id := order[x];
    var kb := b.keyBytes[id];
    assert NameOf(b, id) == kb;
    var bs := KeyBucket(b, sorted, range, order, id);
    var more := f.arena[|b.arena|..];
    assert f.arena == b.arena + more;
    DecodeGrows(b.arena, more, bs);
    g := AddSortedKey(f, kb, bs);
    assert order[..x + 1] == order[..x] + [order[x]];
    FilledNext(b, f, order, x, Decode(b.arena, bs), g);
  }

  lemma {:induction false} FilledNext(b: Bulk, f: Flat, order: seq<int>, x: nat, bucket: Bucket, g: Flat)
    requires BulkOk(b) && KeyOrder(b, order) && x < |order| && Filling(b, f, order, x) && 0 <= order[x] < |b.keyBytes|
    requires FlatOk(g) && f.arena <= g.arena
    requires forall k :: Lookup(g, k) == if k == b.keyBytes[order[x]] then bucket else Lookup(f, k)
    requires forall i :: 0 <= i < |g.dir| ==>
               Key(g, g.dir[i]) == b.keyBytes[order[x]] || exists j :: 0 <= j < |f.dir| && Key(f, f.dir[j]) == Key(g, g.dir[i])
    requires forall row :: Weight(bucket, row) == StreamWeight(b, b.keyBytes[order[x]], row)
    ensures Filling(b, g, order, x + 1)
  {
    assert order[..x + 1] == order[..x] + [order[x]];
    forall i, y | 0 <= i < |g.dir| && x + 1 <= y < |order| ensures Less(Key(g, g.dir[i]), NameOf(b, order[y])) {
      assert Less(NameOf(b, order[x]), NameOf(b, order[y]));
    }
  }

  // finish_initial_fill: strictly key-sorted, non-empty clean buckets, and
  // under every key exactly the summed contributions of the stream.
  method FinishInitialFill(b: Bulk) returns (f: Flat)
    requires BulkOk(b)
    ensures FlatOk(f)
    ensures forall k, row {:trigger Weight(Lookup(f, k), row)} :: Weight(Lookup(f, k), row) == StreamWeight(b, k, row)
  {
    var order := SortKeys(b);
    var sorted, range := SortEntries(b);
    f := Flat(b.arena, [], []);
    for x := 0 to |order|
      invariant Filling(b, f, order, x)
    {
      f := FillNext(b, sorted, range, order, x, f);
    }
    Filled(b, f, order);
  }

  lemma {:induction false} Filled(b: Bulk, f: Flat, order: seq<int>)
    requires BulkOk(b) && KeyOrder(b, order) && Filling(b, f, order, |order|)
    ensures forall k, row {:trigger Weight(Lookup(f, k), row)} :: Weight(Lookup(f, k), row) == StreamWeight(b, k, row)
  {
    assert order[..|order|] == order;
  }

  method SortEntries(b: Bulk) returns (sorted: seq<Ent>, range: seq<(nat, nat)>)
    requires BulkOk(b)
    ensures multiset(sorted) == multiset(b.entries) && EntsInArena(b.arena, sorted)
    ensures forall i, j :: 0 <= i < j < |sorted| ==> !ByIdThenRow(b.arena)(sorted[j], sorted[i])
    ensures |range| == |b.keyBytes| && forall id :: 0 <= id < |range| ==> RangeOf(sorted, id, range[id].0, range[id].1)
  {
    sorted := Sort(b.entries, ByIdThenRow(b.arena));
    ByIdThenRowIsWeak(b.arena);
    SortSorted(b.entries, ByIdThenRow(b.arena));
    forall i | 0 <= i < |sorted| ensures sorted[i] in b.entries {
      assert sorted[i] in multiset(sorted);
    }
    forall i, j | 0 <= i < j < |sorted| ensures sorted[i].keyId <= sorted[j].keyId {
      assert !ByIdThenRow(b.arena)(sorted[j], sorted[i]);
    }
    range := Ranges(sorted, |b.keyBytes|);
  }
}

// The streamed fill and the fill through the bucket maps give the same layer.
module BulkAgreement {
  import opened ZSets
  import opened Rows
  import opened Buckets
  import opened PackedIntegrate
  import opened FlatPacked
  import opened FlatBuild
  import opened BulkFill

  // Every contribution of a sequence streamed, rows with a NULL key left out.
  method StreamAll(dk: seq<DeltaRow>) returns (b: Bulk)
    ensures BulkOk(b)
    ensures forall k, row {:trigger StreamWeight(b, k, row)} :: StreamWeight(b, k, row) == Weight(Adds(dk, k), row)
  {
    b := EMPTY;
    assert forall k :: Adds(dk[..0], k) == [];
    for i := 0 to |dk|
      invariant BulkOk(b)
      invariant forall k, row {:trigger StreamWeight(b, k, row)} :: StreamWeight(b, k, row) == Weight(Adds(dk[..i], k), row)
    {
      ghost var was := b;
      if dk[i].key.Some? {
        b := Stream(b, dk[i].key.value, dk[i].row, dk[i].w);
      }
      forall k, row ensures StreamWeight(b, k, row) == Weight(Adds(dk[..i + 1], k), row) {
        assert StreamWeight(was, k, row) == Weight(Adds(dk[..i], k), row);
        assert dk[..i + 1] == dk[..i] + [dk[i]];
        AddsWeightPush(dk[..i], dk[i], k, row);
      }
    }
    assert dk[..|dk|] == dk;
  }

  lemma AddsWeightPush(dk: seq<DeltaRow>, d: DeltaRow, k: Bytes, row: Bytes)
    ensures Weight(Adds(dk + [d], k), row) == Weight(Adds(dk, k), row) + if d.key == Some(k) && d.row == row then d.w else 0
  {
    AddsPush(dk, d, k);
    if d.key == Some(k) {
      WeightPush(Adds(dk, k), Entry(d.row, d.w), row);
    } else {
      assert Adds(dk, k) + [] == Adds(dk, k);
    }
  }

  // The keys of a directory, in order.
  function KeysOf(f: Flat): (ks: seq<Bytes>)
    requires InBounds(f)
    ensures |ks| == |f.dir| && forall i :: 0 <= i < |ks| ==> f.dir[i] in f.dir && ks[i] == Key(f, f.dir[i])
  {
    seq(|f.dir|, i requires 0 <= i < |f.dir| => assert f.dir[i] in f.dir; Key(f, f.dir[i]))
  }

  ghost predicate StrictlySorted(ks: seq<Bytes>) {
    forall i, j :: 0 <= i < j < |ks| ==> Less(ks[i], ks[j])
  }

  lemma SmallestFirst(a: seq<Bytes>, b: seq<Bytes>)
    requires StrictlySorted(a) && StrictlySorted(b) && a != [] && forall k :: k in a <==> k in b
    ensures b != [] && a[0] == b[0]
  {
    assert a[0] in b;
    assert b[0] in a;
    CmpOrder(a[0], b[0]);
    CmpOrder(b[0], a[0]);
  }

  lemma {:induction false} SortedUnique(a: seq<Bytes>, b: seq<Bytes>)
    requires StrictlySorted(a) && StrictlySorted(b) && forall k :: k in a <==> k in b
    ensures a == b
  {
    if a == [] {
      if b != [] {
        SmallestFirst(b, a);
      }
    } else {
      SmallestFirst(a, b);
      forall k ensures k in a[1..] <==> k in b[1..] {
        TailHolds(a, k);
        TailHolds(b, k);
      }
      SortedUnique(a[1..], b[1..]);
    }
  }

  lemma TailHolds(a: seq<Bytes>, k: Bytes)
    requires StrictlySorted(a) && a != []
    ensures k in a[1..] <==> k in a && k != a[0]
  {
    if k in a[1..] {
      var i :| 1 <= i < |a| && a[i] == k;
      CmpOrder(a[0], a[i]);
    }
  }

  // A directory lists the keys whose bucket weighs something.
  lemma ListsWeighing(f: Flat, k: Bytes)
    requires FlatOk(f)
    ensures k in KeysOf(f) <==> exists row :: Weight(Lookup(f, k), row) != 0
  {
    if k in KeysOf(f) {
      var i :| 0 <= i < |f.dir| && Key(f, f.dir[i]) == k;
      LookupAt(f, i);
      var b := BucketOf(f, f.dir[i]);
      WeightPresent(b, 0);
      assert Weight(Lookup(f, k), b[0].row) != 0;
    } else {
      forall i | 0 <= i < |f.dir| ensures Key(f, f.dir[i]) != k {
        assert KeysOf(f)[i] == Key(f, f.dir[i]);
      }
      assert Lookup(f, k) == [];
    }
  }

  // Layers with the same weights list the same keys, in the same order, and
  // hold the same entries under each.
  lemma LayersAgree(f: Flat, g: Flat)
    requires FlatOk(f) && FlatOk(g) && forall k, row :: Weight(Lookup(f, k), row) == Weight(Lookup(g, k), row)
    ensures KeysOf(f) == KeysOf(g)
    ensures forall k, e :: e in Lookup(f, k) <==> e in Lookup(g, k)
  {
    forall k ensures k in KeysOf(f) <==> k in KeysOf(g) {
      ListsWeighing(f, k);
      ListsWeighing(g, k);
    }
    SortedUnique(KeysOf(f), KeysOf(g));
    forall k, e ensures e in Lookup(f, k) <==> e in Lookup(g, k) {
      LookupClean(f, k);
      LookupClean(g, k);
      CleanDetermined(Lookup(f, k), Lookup(g, k));
    }
  }

  // Whatever sequence of contributions: streaming and finishing, or applying
  // through the bucket maps and folding.
  method FillBothWays(dk: seq<DeltaRow>) returns (streamed: Flat, folded: Flat)
    requires forall d :: d in dk ==> d.w != 0
    ensures FlatOk(streamed) && FlatOk(folded)
    ensures forall k, row {:trigger Weight(Lookup(streamed, k), row)} :: Weight(Lookup(streamed, k), row) == Weight(Adds(dk, k), row)
    ensures forall k, row {:trigger Weight(Lookup(folded, k), row)} :: Weight(Lookup(folded, k), row) == Weight(Adds(dk, k), row)
    ensures KeysOf(streamed) == KeysOf(folded)
    ensures forall k, e :: e in Lookup(streamed, k) <==> e in Lookup(folded, k)
  {
    var b := StreamAll(dk);
    streamed := FinishInitialFill(b);
    var idx, wmap := IntegratePacked(map[], map[], dk, false);
    folded := FoldPacked(Flat([], [], []), idx);
    forall k, row ensures Weight(Lookup(streamed, k), row) == Weight(Adds(dk, k), row)
                  ensures Weight(Lookup(folded, k), row) == Weight(Adds(dk, k), row)
    {
      assert Weight(Lookup(streamed, k), row) == StreamWeight(b, k, row);
      assert Weight(Lookup(folded, k), row) == Both(Flat([], [], []), idx, k, row);
      assert Weight(At(idx, k), row) == Weight(At(map[], k), row) + Weight(Adds(dk, k), row);
    }
    LayersAgree(streamed, folded);
  }
}
