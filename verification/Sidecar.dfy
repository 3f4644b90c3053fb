// The durable sidecar of one shared arrangement: a base file, an optional
// delta file chained to it, and an in-place restamp of the base
// (include/dbsp_cdc.hpp, include/dbsp_plan_join.hpp, include/dbsp_flat_packed.hpp).
module Sidecar {
  import opened ZSets
  import opened Rows

  // Encoded keys and rows; only their identity matters here.
  type Bytes = seq<int>
  type Bucket = ZSet<Bytes>
  type Layer = map<Bytes, Bucket>

  function At(layer: Layer, k: Bytes): Bucket {
    if k in layer then layer[k] else map[]
  }

  // A layer without empty buckets and without zero weights.
  ghost predicate Canonical(layer: Layer) {
    forall k :: k in layer ==> Normal(layer[k]) && layer[k] != map[]
  }

  ghost predicate NormalLayer(layer: Layer) {
    forall k :: k in layer ==> Normal(layer[k])
  }

  // The content of an arrangement: flat layer plus overlay, summed per row.
  function Merged(flat: Layer, packed: Layer, k: Bytes): Bucket {
    Plus(At(flat, k), At(packed, k))
  }

  function Fold(flat: Layer, packed: Layer): (r: Layer)
    ensures Canonical(r)
    ensures forall k {:trigger At(r, k)} :: At(r, k) == Merged(flat, packed, k)
  {
    map k | k in flat.Keys + packed.Keys && Merged(flat, packed, k) != map[] :: Merged(flat, packed, k)
  }

  // Replacement buckets of the keys touched since the base was adopted.
  function FoldTouched(flat: Layer, packed: Layer): Layer {
    map k | k in packed :: Merged(flat, packed, k)
  }

  // A base with replacement buckets; an empty replacement masks its bucket.
  function Patched(base: Layer, repl: Layer): (r: Layer)
    ensures NormalLayer(base) && NormalLayer(repl) ==> Canonical(r)
    ensures forall k {:trigger At(r, k)} :: At(r, k) == if k in repl then repl[k] else At(base, k)
  {
    map k | k in base.Keys + repl.Keys && (if k in repl then repl[k] else At(base, k)) != map[]
          :: if k in repl then repl[k] else At(base, k)
  }

  lemma SameContent(a: Layer, b: Layer)
    requires Canonical(a) && Canonical(b)
    requires forall k :: At(a, k) == At(b, k)
    ensures a == b
  {
    forall k | k in a.Keys + b.Keys ensures k in a && k in b && a[k] == b[k] {
      assert At(a, k) == At(b, k);
    }
    assert a.Keys == b.Keys;
  }

  // The writer's replacement buckets, read back over the base they are
  // chained to, are the whole content.
  lemma TouchedKeysSuffice(base: Layer, flat: Layer, packed: Layer)
    requires Canonical(base)
    requires forall k :: k !in packed ==> Merged(flat, packed, k) == At(base, k)
    ensures Patched(base, FoldTouched(flat, packed)) == Fold(flat, packed)
  {
    SameContent(Patched(base, FoldTouched(flat, packed)), Fold(flat, packed));
  }

  // Stamps identify contents: a save id, or a table's watermark.
  type Stamp = nat

  // A torn restamp leaves a header that matches no stamp.
  datatype BaseFile = BaseFile(stamp: Option<Stamp>, content: Layer)
  datatype DeltaFile = DeltaFile(stamp: Stamp, base: Stamp, repl: Layer)

  // How one file action ends. A crash ends the process before the action.
  datatype Outcome = Done | Fails | Torn | Crash

  // The files of one arrangement.
  datatype Files = Files(base: Option<BaseFile>, delta: Option<DeltaFile>)
  {
    // Which stamp a load would accept.
    predicate Adoptable(s: Stamp) {
      && base.Some?
      && ((delta.Some? && delta.value.stamp == s && base.value.stamp == Some(delta.value.base))
          || base.value.stamp == Some(s))
    }
  }

  // The arrangement in memory: both layers, the stamp of the base file the
  // overlay chains to, and the stamp of the last sidecar write.
  datatype Memory = Memory(flat: Layer, packed: Layer, fileStamp: Option<Stamp>, savedStamp: Option<Stamp>)
  {
    function Content(): (r: Layer)
      ensures Canonical(r)
    {
      Fold(flat, packed)
    }
  }

  // What each stamp ever given to the arrangement stood for.
  type History = map<Stamp, Layer>

  ghost predicate FilesTrue(files: Files, history: History) {
    && (forall s :: s in history ==> Canonical(history[s]))
    && (files.base.Some? && files.base.value.stamp.Some? ==>
          && files.base.value.stamp.value in history
          && files.base.value.content == history[files.base.value.stamp.value])
    && (files.delta.Some? ==>
          && files.delta.value.stamp in history && files.delta.value.base in history
          && NormalLayer(files.delta.value.repl)
          && Patched(history[files.delta.value.base], files.delta.value.repl) == history[files.delta.value.stamp])
  }

  // The chain: every key without an overlay entry still has the bucket of
  // the base file. This needs apply never to drop a key from the overlay.
  ghost predicate ChainTrue(viewSourced: bool, files: Files, mem: Memory, history: History) {
    mem.fileStamp.Some? ==>
      && mem.fileStamp.value in history
      && (forall k :: k !in mem.packed ==> Merged(mem.flat, mem.packed, k) == At(history[mem.fileStamp.value], k))
      && files.base.Some? && files.base.value.content == history[mem.fileStamp.value]
      && (files.base.value.stamp == mem.fileStamp || (viewSourced && files.base.value.stamp == None))
  }

  ghost predicate Sound(viewSourced: bool, files: Files, mem: Option<Memory>, history: History) {
    && FilesTrue(files, history)
    && (mem.Some? ==>
          && Canonical(mem.value.flat) && NormalLayer(mem.value.packed)
          && ChainTrue(viewSourced, files, mem.value, history)
          && (!viewSourced && mem.value.savedStamp.Some? ==> files.Adoptable(mem.value.savedStamp.value)))
  }

  // ---- deltas ----

  // Deltas land in the overlay; a key once touched stays there, even with an
  // empty bucket.
  method ApplyOverlay(packed0: Layer, d: Layer) returns (packed: Layer)
    requires NormalLayer(packed0)
    ensures NormalLayer(packed) && packed.Keys == packed0.Keys + d.Keys
    ensures forall k {:trigger At(packed, k)} :: At(packed, k) == if k in d then Plus(At(packed0, k), d[k]) else At(packed0, k)
  {
    packed := packed0;
    var todo := d.Keys;
    while todo != {}
      invariant todo <= d.Keys && NormalLayer(packed)
      invariant packed.Keys == packed0.Keys + (d.Keys - todo)
      invariant forall k {:trigger At(packed, k)} :: At(packed, k) ==
                  if k in d && k !in todo then Plus(At(packed0, k), d[k]) else At(packed0, k)
      decreases todo
    {
      var k :| k in todo;
      ghost var was := packed;
      packed := packed[k := Plus(At(packed, k), d[k])];
      todo := todo - {k};
      assert forall x :: x != k ==> At(packed, x) == At(was, x);
    }
  }

  lemma ApplyKeepsSound(viewSourced: bool, files: Files, mem: Memory, packed: Layer, d: Layer, history: History)
    requires Sound(viewSourced, files, Some(mem), history)
    requires NormalLayer(packed) && packed.Keys == mem.packed.Keys + d.Keys
    requires forall k {:trigger At(packed, k)} :: At(packed, k) == if k in d then Plus(At(mem.packed, k), d[k]) else At(mem.packed, k)
    ensures Sound(viewSourced, files, Some(mem.(packed := packed)), history)
    ensures forall k :: At(mem.(packed := packed).Content(), k) == Plus(At(mem.Content(), k), At(d, k))
  {
    forall k ensures Merged(mem.flat, packed, k) == Plus(Merged(mem.flat, mem.packed, k), At(d, k)) {
      assert At(packed, k) == if k in d then Plus(At(mem.packed, k), d[k]) else At(mem.packed, k);
      MergeAdds(mem.flat, mem.packed, packed, d, k);
    }
    forall k | k !in packed ensures Merged(mem.flat, packed, k) == Merged(mem.flat, mem.packed, k) {
      assert At(packed, k) == At(mem.packed, k);
    }
  }

  // ---- file actions ----

  method WriteBase(files: Files, s: Stamp, content: Layer, outcome: Outcome) returns (files': Files, ok: bool)
    ensures ok == outcome.Done?
    ensures files' == if ok then files.(base := Some(BaseFile(Some(s), content))) else files
  {
    ok, files' := outcome.Done?, files;
    if ok {
      files' := files.(base := Some(BaseFile(Some(s), content)));
    }
  }

  method WriteDelta(files: Files, s: Stamp, baseStamp: Stamp, repl: Layer, outcome: Outcome) returns (files': Files, ok: bool)
    ensures ok == outcome.Done?
    ensures files' == if ok then files.(delta := Some(DeltaFile(s, baseStamp, repl))) else files
  {
    ok, files' := outcome.Done?, files;
    if ok {
      files' := files.(delta := Some(DeltaFile(s, baseStamp, repl)));
    }
  }

  // Patch the stamp of the base in place; the content bytes stay.
  method RestampBase(files: Files, s: Stamp, outcome: Outcome) returns (files': Files, ok: bool)
    ensures ok == (outcome.Done? && files.base.Some?)
    ensures files' == if files.base.None? || outcome.Fails? then files
                      else files.(base := Some(BaseFile(if ok then Some(s) else None, files.base.value.content)))
  {
    ok, files' := false, files;
    if files.base.None? || outcome.Fails? {
      return;
    }
    ok := outcome.Done?;
    files' := files.(base := Some(files.base.value.(stamp := if ok then Some(s) else None)));
  }

  // ---- save ----

  // The guard of the branch that leaves a table's files as they are although
  // they do not carry the stamp of this save.
  predicate StaleSkip(viewSourced: bool, files: Files, mem: Memory, s: Stamp) {
    !viewSourced && mem.packed == map[] && mem.flat != map[] && mem.fileStamp.Some? && !files.Adoptable(s)
  }

  // The base file can still be chained to and re-stamped.
  predicate BaseIntact(files: Files, mem: Memory) {
    mem.fileStamp == None || (files.base.Some? && files.base.value.stamp == mem.fileStamp)
  }

  // A clean view-sourced base is re-stamped in place.
  method Restamp(files: Files, mem: Memory, s: Stamp, outcome: Outcome, ghost history: History)
    returns (files': Files, mem': Option<Memory>, finished: bool)
    requires Sound(true, files, Some(mem), history) && mem.fileStamp.Some? && mem.packed == map[]
    requires s in history && history[s] == mem.Content()
    ensures Sound(true, files', mem', history)
    ensures mem'.Some? ==> mem'.value.flat == mem.flat && mem'.value.packed == mem.packed
    ensures mem'.None? <==> outcome.Crash?
    ensures finished <==> outcome.Done? || outcome.Crash?
    ensures outcome.Done? ==> files'.Adoptable(s)
    ensures !finished ==> mem' == Some(mem)
  {
    files', mem' := files, Some(mem);
    if outcome.Crash? {
      return files', None, true;
    }
    assert forall k :: At(mem.Content(), k) == At(history[mem.fileStamp.value], k);
    SameContent(history[mem.fileStamp.value], mem.Content());
    files', finished := RestampBase(files, s, outcome);
    if finished {
      mem' := Some(mem.(fileStamp := Some(s), savedStamp := Some(s)));
      assert forall k :: Merged(mem.flat, mem.packed, k) == At(mem.Content(), k);
    }
  }

  // With a base to chain to and a small overlay, only the touched keys.
  method AppendDelta(viewSourced: bool, files: Files, mem: Memory, s: Stamp, outcome: Outcome, ghost history: History)
    returns (files': Files, mem': Option<Memory>, finished: bool)
    requires Sound(viewSourced, files, Some(mem), history) && mem.fileStamp.Some?
    requires s in history && history[s] == mem.Content()
    ensures Sound(viewSourced, files', mem', history)
    ensures mem'.Some? ==> mem'.value.flat == mem.flat && mem'.value.packed == mem.packed
    ensures mem'.None? <==> outcome.Crash?
    ensures finished <==> outcome.Done? || outcome.Crash?
    ensures outcome.Done? && BaseIntact(files, mem) ==> files'.Adoptable(s)
    ensures !finished ==> mem' == Some(mem) && files' == files
  {
    files', mem' := files, Some(mem);
    if outcome.Crash? {
      return files', None, true;
    }
    TouchedKeysSuffice(history[mem.fileStamp.value], mem.flat, mem.packed);
    files', finished := WriteDelta(files, s, mem.fileStamp.value, FoldTouched(mem.flat, mem.packed), outcome);
    if finished {
      mem' := Some(mem.(savedStamp := Some(s)));
    }
  }

  // Fold both layers into a new base and drop the delta file.
  method WriteFull(viewSourced: bool, files: Files, mem: Memory, s: Stamp, write: Outcome, remove: Outcome, ghost history: History)
    returns (files': Files, mem': Option<Memory>)
    requires Sound(viewSourced, files, Some(mem), history)
    requires s in history && history[s] == mem.Content()
    ensures Sound(viewSourced, files', mem', history)
    ensures mem'.Some? ==> mem'.value.flat == mem.flat && mem'.value.packed == mem.packed
    ensures !write.Crash? && !remove.Crash? ==> mem'.Some?
    ensures write.Done? && remove.Done? ==> files' == Files(Some(BaseFile(Some(s), mem.Content())), None)
    ensures write.Done? && remove.Done? ==> mem' == Some(mem.(fileStamp := Some(s), savedStamp := Some(s)))
  {
    files', mem' := files, Some(mem);
    if write.Crash? {
      return files', None;
    }
    assert forall k :: Merged(mem.flat, mem.packed, k) == At(mem.Content(), k);
    var written;
    files', written := WriteBase(files, s, Fold(mem.flat, mem.packed), write);
    if !written {
      return;
    }
    if remove.Crash? {
      return files', None;
    }
    if remove.Done? {
      files' := files'.(delta := None); // a full fold supersedes any delta chained to the old base
    }
    mem' := Some(mem.(fileStamp := Some(s), savedStamp := Some(s)));
  }

  // The outcomes of the file actions of one save, in order.
  datatype Plan = Plan(restamp: Outcome, append: Outcome, write: Outcome, remove: Outcome)
  {
    predicate NoCrash() { !restamp.Crash? && !append.Crash? && !write.Crash? && !remove.Crash? }
    predicate NoFault() { restamp.Done? && append.Done? && write.Done? && remove.Done? }
  }

  // Nothing to do, a chained delta, or a full fold.
  method Rewrite(viewSourced: bool, files: Files, mem: Memory, s: Stamp, plan: Plan, ghost history: History)
    returns (files': Files, mem': Option<Memory>)
    requires Sound(viewSourced, files, Some(mem), history)
    requires s in history && history[s] == mem.Content()
    ensures Sound(viewSourced, files', mem', history)
    ensures mem'.Some? ==> mem'.value.flat == mem.flat && mem'.value.packed == mem.packed
    ensures plan.NoCrash() ==> mem'.Some?
    ensures plan.NoFault() && BaseIntact(files, mem) ==> files'.Adoptable(s)
  {
    if !viewSourced && mem.savedStamp == Some(s) {
      return files, Some(mem); // this exact content is already on disk
    }
    if mem.fileStamp.Some? && |mem.packed| * 10 < |mem.flat| {
      var finished;
      files', mem', finished := AppendDelta(viewSourced, files, mem, s, plan.append, history);
      if finished {
        return;
      }
    }
    files', mem' := WriteFull(viewSourced, files, mem, s, plan.write, plan.remove, history);
  }

  // The sidecar step of one save, after the checkpoint with stamp s has been
  // committed (so `history` already records it).
  method SaveSidecar(viewSourced: bool, files: Files, mem: Memory, s: Stamp, plan: Plan, ghost history: History)
    returns (files': Files, mem': Option<Memory>)
    requires Sound(viewSourced, files, Some(mem), history)
    requires s in history && history[s] == mem.Content()
    ensures Sound(viewSourced, files', mem', history)
    ensures mem'.Some? ==> mem'.value.flat == mem.flat && mem'.value.packed == mem.packed
    ensures plan.NoCrash() ==> mem'.Some?
    ensures plan.NoFault() && BaseIntact(files, mem) ==>
              (files'.Adoptable(s) <==> !StaleSkip(viewSourced, files, mem, s))
  {
    files', mem' := files, Some(mem);
    if mem.packed == map[] && mem.flat != map[] && mem.fileStamp.Some? {
      if !viewSourced {
        return; // believed unchanged: the file stays as it is
      }
      var finished;
      files', mem', finished := Restamp(files, mem, s, plan.restamp, history);
      if finished {
        return;
      }
    }
    files', mem' := Rewrite(viewSourced, files', mem, s, plan, history);
  }

  // ---- load ----

  // Adopt the files for the stamp the loaded checkpoint (or the verified
  // table) carries; without a match the arrangement is refilled from its
  // source, whose content is `source`.
  method Adopt(viewSourced: bool, files: Files, s: Stamp, source: Layer, ghost history: History)
    returns (mem: Memory, adopted: bool)
    requires FilesTrue(files, history) && Canonical(source)
    ensures Sound(viewSourced, files, Some(mem), history)
    ensures adopted == files.Adoptable(s)
    ensures adopted ==> s in history && mem.Content() == history[s]
    ensures !adopted ==> mem.Content() == source && mem.fileStamp == None
  {
    if files.delta.Some? && files.delta.value.stamp == s
       && files.base.Some? && files.base.value.stamp == Some(files.delta.value.base) {
      var flat := files.base.value.content;
      var packed := Overlay(flat, files.delta.value.repl);
      OverlayPatches(flat, files.delta.value.repl, packed);
      return Memory(flat, packed, Some(files.delta.value.base), Some(s)), true;
    }
    if files.base.Some? && files.base.value.stamp == Some(s) {
      FoldNothing(files.base.value.content);
      return Memory(files.base.value.content, map[], Some(s), Some(s)), true;
    }
    FoldNothing(source);
    return Memory(source, map[], None, None), false;
  }

  lemma MergeAdds(flat: Layer, before: Layer, after: Layer, d: Layer, k: Bytes)
    requires At(after, k) == if k in d then Plus(At(before, k), d[k]) else At(before, k)
    ensures Merged(flat, after, k) == Plus(Merged(flat, before, k), At(d, k))
  {
    Extensional(Merged(flat, after, k), Plus(Merged(flat, before, k), At(d, k)));
  }

  lemma FoldNothing(flat: Layer)
    requires Canonical(flat)
    ensures Fold(flat, map[]) == flat
    ensures forall k :: Merged(flat, map[], k) == At(flat, k)
  {
    forall k ensures Merged(flat, map[], k) == At(flat, k) {
      Extensional(Merged(flat, map[], k), At(flat, k));
    }
    SameContent(Fold(flat, map[]), flat);
  }

  ghost predicate IsOverlay(base: Layer, repl: Layer, packed: Layer) {
    && Canonical(packed)
    && forall k {:trigger At(packed, k)} :: At(packed, k) == if k in repl then Minus(repl[k], At(base, k)) else map[]
  }

  // Overlay deltas = replacement - base bucket, keys without a net delta left out.
  method Overlay(base: Layer, repl: Layer) returns (packed: Layer)
    ensures IsOverlay(base, repl, packed)
  {
    packed := map[];
    var todo := repl.Keys;
    while todo != {}
      invariant todo <= repl.Keys && Canonical(packed)
      invariant forall k {:trigger At(packed, k)} :: At(packed, k) ==
                  if k in repl && k !in todo then Minus(repl[k], At(base, k)) else map[]
      decreases todo
    {
      var k :| k in todo;
      todo := todo - {k};
      var deltas := Minus(repl[k], At(base, k));
      ghost var was := packed;
      if deltas != map[] {
        packed := packed[k := deltas];
      }
      assert forall x :: x != k ==> At(packed, x) == At(was, x);
    }
  }

  lemma OverlayAt(base: Layer, repl: Layer, packed: Layer, k: Bytes)
    requires Canonical(base) && NormalLayer(repl) && IsOverlay(base, repl, packed)
    ensures Merged(base, packed, k) == if k in repl then repl[k] else At(base, k)
    ensures k !in packed ==> Merged(base, packed, k) == At(base, k)
  {
    var want := if k in repl then repl[k] else At(base, k);
    forall x ensures W(Merged(base, packed, k), x) == W(want, x) {
      assert W(Merged(base, packed, k), x) == W(At(base, k), x) + W(At(packed, k), x);
      if k in repl {
        assert W(Minus(repl[k], At(base, k)), x) == W(repl[k], x) - W(At(base, k), x);
      }
    }
    Extensional(Merged(base, packed, k), want);
    if k !in packed {
      Extensional(Merged(base, packed, k), At(base, k));
    }
  }

  lemma OverlayPatches(base: Layer, repl: Layer, packed: Layer)
    requires Canonical(base) && NormalLayer(repl) && IsOverlay(base, repl, packed)
    ensures Fold(base, packed) == Patched(base, repl)
    ensures forall k :: k !in packed ==> Merged(base, packed, k) == At(base, k)
  {
    forall k ensures Merged(base, packed, k) == if k in repl then repl[k] else At(base, k)
      ensures k !in packed ==> Merged(base, packed, k) == At(base, k)
    {
      OverlayAt(base, repl, packed, k);
    }
    SameContent(Fold(base, packed), Patched(base, repl));
  }

  // A table whose only change was a row with a NULL key gets a new stamp, but
  // no overlay entry: a fault-free save then leaves the old file in place,
  // and the next load refills the arrangement instead of adopting it.
  lemma NullKeyChange(content: Layer, before: Stamp, after: Stamp)
    requires Canonical(content) && content != map[] && before != after
    ensures var files := Files(Some(BaseFile(Some(before), content)), None);
            var mem := Memory(content, map[], Some(before), Some(before));
            && Sound(false, files, Some(mem), map[before := content, after := content])
            && BaseIntact(files, mem) && StaleSkip(false, files, mem, after)
  {
    FoldNothing(content);
  }
}

// The store of one arrangement over whole runs.
module SidecarStore {
  import opened ZSets
  import opened Rows
  import opened Sidecar

  class ArrangementStore {
    const viewSourced: bool
    var files: Files
    var mem: Option<Memory>   // None: no process holds the arrangement
    ghost var history: History

    ghost predicate Valid()
      reads this
    {
      Sound(viewSourced, files, mem, history)
    }

    constructor (viewSourced: bool)
      ensures Valid() && mem == None && files == Files(None, None) && history == map[]
      ensures this.viewSourced == viewSourced
    {
      this.viewSourced := viewSourced;
      files, mem, history := Files(None, None), None, map[];
    }

    method Apply(d: Layer)
      requires Valid() && mem.Some? && NormalLayer(d)
      modifies this`mem
      ensures Valid() && mem.Some?
      ensures forall k :: At(mem.value.Content(), k) == Plus(At(old(mem.value.Content()), k), At(d, k))
    {
      var packed := ApplyOverlay(mem.value.packed, d);
      ApplyKeepsSound(viewSourced, files, mem.value, packed, d, history);
      mem := Some(mem.value.(packed := packed));
    }

    // A save whose checkpoint carries stamp s: fresh for a view, the table's
    // watermark for a table. The process may crash between any two actions.
    method Save(s: Stamp, plan: Plan)
      requires Valid() && mem.Some?
      requires s in history ==> !viewSourced && history[s] == mem.value.Content()
      modifies this
      ensures Valid()
      ensures history == old(history)[s := old(mem.value.Content())]
      ensures mem.Some? ==> mem.value.Content() == old(mem.value.Content())
      ensures plan.NoCrash() ==> mem.Some?
      ensures plan.NoFault() && old(BaseIntact(files, mem.value)) ==>
                (files.Adoptable(s) <==> !old(StaleSkip(viewSourced, files, mem.value, s)))
    {
      history := history[s := mem.value.Content()];
      files, mem := SaveSidecar(viewSourced, files, mem.value, s, plan, history);
    }

    method CrashNow()
      requires Valid()
      modifies this`mem
      ensures Valid() && mem == None
    {
      mem := None;
    }

    // Whatever saves, faults and crashes came before: an adopted sidecar is
    // exactly the content at the save that stamp belongs to.
    method Load(s: Stamp, source: Layer) returns (adopted: bool)
      requires Valid() && mem == None && Canonical(source)
      modifies this`mem
      ensures Valid() && mem.Some?
      ensures adopted == files.Adoptable(s)
      ensures adopted ==> s in history && mem.value.Content() == history[s]
      ensures !adopted ==> mem.value.Content() == source
    {
      var loaded;
      loaded, adopted := Adopt(viewSourced, files, s, source, history);
      mem := Some(loaded);
    }
  }
}
