// One pass per commit over the view DAG, lazily restored views, and the
// creation of views (include/dbsp_cdc.hpp).
module Catalogs {
  import opened ZSets
  import opened Rows
  import opened DepGraph

  type Inputs = map<Name, ZSet<Row>>

  // What a view's circuit holds: the contents of its sources as it has seen
  // them, and the sum of what it has emitted.
  datatype Core = Core(seen: Inputs, result: ZSet<Row>)

  // `query` is the view's SQL meaning. A restored view keeps its checkpointed
  // core in `stash` until first use; `live` is empty until then.
  datatype View = View(sources: set<Name>, shared: set<Name>, query: Inputs -> ZSet<Row>, createdAt: nat,
                       live: Core, stash: Option<Core>, batch: ZSet<Row>, steps: nat, generation: nat)

  // The shared index over one source.
  datatype Arrangement = Arrangement(content: ZSet<Row>, needsBackfill: bool)

  datatype Catalog = Catalog(tables: Inputs, views: map<Name, View>, arrs: map<Name, Arrangement>, g: Graph,
                             commitSeq: nat, lastCreated: nat)

  const NO_ROWS: ZSet<Row> := map[]

  function Logical(v: View): Core {
    if v.stash.Some? then v.stash.value else v.live
  }

  function Content(m: Catalog, n: Name): ZSet<Row> {
    if n in m.tables then m.tables[n]
    else if n in m.views then Logical(m.views[n]).result
    else NO_ROWS
  }

  // The query's answer as a normalised Z-set.
  function Answer(v: View, inputs: Inputs): (r: ZSet<Row>)
    ensures Normal(r)
  {
    Plus(map[], v.query(inputs))
  }

  // ---- invariants of every reachable catalog ----

  // The view answers its query over the current contents of its sources.
  ghost predicate ViewSound(m: Catalog, n: Name)
    requires n in m.views
  {
    var v := m.views[n];
    && Logical(v).seen.Keys == v.sources
    && (forall s :: s in v.sources ==> Logical(v).seen[s] == Content(m, s))
    && Logical(v).result == Answer(v, Logical(v).seen)
  }

  ghost predicate ArrangementSound(m: Catalog, n: Name)
    requires n in m.arrs
  {
    && (n in m.tables || n in m.views)
    && if m.arrs[n].needsBackfill then n in m.views && m.views[n].stash.Some? && m.arrs[n].content == NO_ROWS
       else m.arrs[n].content == Content(m, n)
  }

  ghost predicate Defined(m: Catalog, n: Name)
    requires n in m.views
  {
    var v := m.views[n];
    && v.shared <= v.sources
    && v.shared <= m.arrs.Keys
    && v.createdAt <= m.lastCreated
    && forall s :: s in v.sources ==> s in m.tables || (s in m.views && m.views[s].createdAt < v.createdAt)
  }

  ghost predicate WellFormed(m: Catalog) {
    && m.tables.Keys !! m.views.Keys
    && (forall t :: t in m.tables ==> Normal(m.tables[t]))
    && (forall n {:trigger Defined(m, n)} :: n in m.views ==> Defined(m, n))
    && Inverse(m.g) && Acyclic(m.g.dependents)
    && forall n :: Out(m.g.dependencies, n) == if n in m.views then m.views[n].sources else {}
  }

  ghost predicate Sound(m: Catalog) {
    && WellFormed(m)
    && (forall n {:trigger ViewSound(m, n)} :: n in m.views ==> ViewSound(m, n))
    && (forall n {:trigger ArrangementSound(m, n)} :: n in m.arrs ==> ArrangementSound(m, n))
  }

  // ---- the from-scratch meaning ----

  // The rows of a Z-set, without those of weight 0.
  ghost function Present(z: ZSet<Row>): ZSet<Row> {
    map x | x in z && z[x] != 0 :: z[x]
  }

  // Evaluate every view from the base tables alone.
  ghost function FromScratch(m: Catalog, n: Name): ZSet<Row>
    requires WellFormed(m)
    decreases if n in m.views then m.views[n].createdAt + 1 else 0
  {
    if n in m.tables then m.tables[n]
    else if n in m.views then
      assert Defined(m, n);
      Present(m.views[n].query(map s | s in m.views[n].sources :: FromScratch(m, s)))
    else NO_ROWS
  }

  lemma AnswerIsQuery(v: View, inputs: Inputs)
    ensures Answer(v, inputs) == Present(v.query(inputs))
    ensures forall x {:trigger W(Answer(v, inputs), x)} :: W(Answer(v, inputs), x) == W(v.query(inputs), x)
  {
    Extensional(Answer(v, inputs), Present(v.query(inputs)));
  }

  // Every row of the view weighs what the query gives it over the contents of
  // the sources, themselves evaluated from scratch.
  ghost predicate EqualsQuery(m: Catalog, n: Name, content: ZSet<Row>)
    requires WellFormed(m) && n in m.views
  {
    forall x :: W(content, x) == W(m.views[n].query(map s | s in m.views[n].sources :: FromScratch(m, s)), x)
  }

  lemma {:induction false} ContentIsFromScratch(m: Catalog, n: Name)
    requires Sound(m)
    ensures Content(m, n) == FromScratch(m, n)
    ensures n in m.views ==> EqualsQuery(m, n, Content(m, n))
    decreases if n in m.views then m.views[n].createdAt + 1 else 0
  {
    if n in m.views {
      var v := m.views[n];
      assert Defined(m, n) && ViewSound(m, n);
      forall s | s in v.sources ensures Content(m, s) == FromScratch(m, s) {
        ContentIsFromScratch(m, s);
      }
      assert Logical(v).seen == map s | s in v.sources :: FromScratch(m, s);
      AnswerIsQuery(v, Logical(v).seen);
    }
  }

  lemma AllEqualQueries(m: Catalog)
    requires Sound(m)
    ensures forall n :: n in m.views ==> EqualsQuery(m, n, Content(m, n))
  {
    forall n | n in m.views ensures EqualsQuery(m, n, Content(m, n)) {
      ContentIsFromScratch(m, n);
    }
  }

  // ---- one view's step ----

  // The changed inputs of this pass, all together.
  function Changed(v: View, pending: Inputs): (r: Inputs)
    ensures forall s :: s in r <==> s in v.sources && s in pending && pending[s] != NO_ROWS
  {
    map s | s in v.sources && s in pending && pending[s] != NO_ROWS :: pending[s]
  }

  // The circuit's contract: a step emits what moves the emitted sum to the
  // query over the inputs seen.
  function Stepped(v: View, pending: Inputs, seqNo: nat): View
    requires v.live.seen.Keys == v.sources
  {
    var inputs := Changed(v, pending);
    if inputs == map[] then v else
      var seen := map s | s in v.sources :: if s in inputs then Plus(v.live.seen[s], inputs[s]) else v.live.seen[s];
      var out := Minus(Answer(v, seen), v.live.result);
      v.(live := Core(seen, Plus(v.live.result, out)), batch := out, steps := v.steps + 1, generation := seqNo)
  }

  // Shared indexes must already include this pass's delta, and nothing the
  // step reads may still be waiting to be restored.
  ghost predicate Ready(v: View, arrs: map<Name, Arrangement>, pending: Inputs) {
    && v.stash.None? && v.live.seen.Keys == v.sources
    && forall s :: s in v.shared ==>
         && s in arrs && s in v.sources && !arrs[s].needsBackfill
         && arrs[s].content == if s in pending && pending[s] != NO_ROWS then Plus(v.live.seen[s], pending[s]) else v.live.seen[s]
  }

  lemma PlusMinus(a: ZSet<Row>, b: ZSet<Row>)
    requires Normal(a) && Normal(b)
    ensures Plus(b, Minus(a, b)) == a
    ensures Minus(a, b) == NO_ROWS <==> a == b
  {
    Extensional(Plus(b, Minus(a, b)), a);
    if Minus(a, b) == NO_ROWS {
      forall x ensures W(a, x) == W(b, x) {
        assert W(Minus(a, b), x) == 0;
      }
      Extensional(a, b);
    }
  }

  lemma SteppedAnswers(v: View, pending: Inputs, seqNo: nat)
    requires v.live.seen.Keys == v.sources && v.live.result == Answer(v, v.live.seen)
    ensures var r := Stepped(v, pending, seqNo);
            && r.live.seen.Keys == v.sources && r.live.result == Answer(v, r.live.seen)
            && r == v.(live := r.live, batch := r.batch, steps := r.steps, generation := r.generation)
            && (forall s :: s in v.sources ==>
                  r.live.seen[s] == if s in Changed(v, pending) then Plus(v.live.seen[s], pending[s]) else v.live.seen[s])
  {
    var r := Stepped(v, pending, seqNo);
    PlusMinus(Answer(v, r.live.seen), v.live.result);
  }

  // ---- the pass, seen from outside ----

  // What a pass may not change.
  ghost predicate SameDefinition(a: View, b: View) {
    a.sources == b.sources && a.shared == b.shared && a.query == b.query && a.createdAt == b.createdAt
  }

  ghost predicate SameCatalog(a: Catalog, b: Catalog) {
    && a.views.Keys == b.views.Keys && a.tables.Keys == b.tables.Keys && a.arrs.Keys == b.arrs.Keys && a.g == b.g
    && a.lastCreated == b.lastCreated
    && forall n :: n in a.views ==> SameDefinition(a.views[n], b.views[n])
  }

  ghost predicate SourceChanged(before: Catalog, after: Catalog, v: View) {
    exists s :: s in v.sources && Content(before, s) != Content(after, s)
  }
}

// The invariant of one pass.
module PassState {
  import opened ZSets
  import opened Rows
  import opened DepGraph
  import opened Catalogs

  // The content of n moved by exactly its pending delta.
  ghost predicate Moved(m0: Catalog, m: Catalog, pending: Inputs, n: Name) {
    if n in pending then
      pending[n] != NO_ROWS && Normal(pending[n]) && Content(m, n) == Plus(Content(m0, n), pending[n])
    else
      Content(m, n) == Content(m0, n)
  }

  // What the pass did to one view it is finished with.
  ghost predicate Recorded(a: View, b: View, pending: Inputs, seqNo: nat) {
    if Changed(a, pending) == map[] then b == a
    else
      && b.steps == a.steps + 1 && b.generation == seqNo
      && a.stash.None? && b.stash.None? && b.batch == Minus(b.live.result, a.live.result)
  }

  ghost predicate NodeState(m0: Catalog, m: Catalog, pending: Inputs, todo: set<Name>, n: Name)
    requires n in m0.views && n in m.views
  {
    if n in todo then m.views[n] == m0.views[n]
    else
      && ViewSound(m, n) && m.views[n].sources !! todo
      && Recorded(m0.views[n], m.views[n], pending, m.commitSeq)
  }

  // Views in `todo` have not been stepped yet.
  ghost predicate PassInv(m0: Catalog, m: Catalog, pending: Inputs, todo: set<Name>) {
    && SameCatalog(m0, m)
    && todo <= m.views.Keys && todo !! pending.Keys
    && (forall n {:trigger Moved(m0, m, pending, n)} :: Moved(m0, m, pending, n))
    && (forall n {:trigger NodeState(m0, m, pending, todo, n)} :: n in m.views ==> NodeState(m0, m, pending, todo, n))
    && (forall n {:trigger ArrangementSound(m, n)} :: n in m.arrs ==> ArrangementSound(m, n))
  }

  // Everything n reads is live in m0, and its sources are finished.
  ghost predicate Steppable(m0: Catalog, todo: set<Name>, n: Name)
    requires n in m0.views
  {
    && m0.views[n].stash.None? && m0.views[n].sources !! todo
    && Defined(m0, n) && ViewSound(m0, n)
    && forall s :: s in m0.views[n].shared ==> s in m0.tables || (s in m0.views && m0.views[s].stash.None?)
  }

  // ---- publishing one stepped view ----

  // The new state r of view v answers its query over the moved inputs.
  ghost predicate IsStep(v: View, pending: Inputs, seqNo: nat, r: View) {
    && SameDefinition(v, r) && v.stash.None? && r.stash.None?
    && v.live.seen.Keys == v.sources && r.live.seen.Keys == v.sources
    && (forall s :: s in v.sources ==>
          r.live.seen[s] == if s in Changed(v, pending) then Plus(v.live.seen[s], pending[s]) else v.live.seen[s])
    && r.live.result == Answer(v, r.live.seen)
    && Recorded(v, r, pending, seqNo)
  }

  // The published delta of a step.
  function Delta(v: View, pending: Inputs, r: View): ZSet<Row> {
    if Changed(v, pending) == map[] then NO_ROWS else r.batch
  }

  function PublishedPending(pending: Inputs, n: Name, d: ZSet<Row>): Inputs {
    if d != NO_ROWS then pending[n := d] else pending
  }

  function PublishedArrs(arrs: map<Name, Arrangement>, n: Name, d: ZSet<Row>): map<Name, Arrangement> {
    if d != NO_ROWS && n in arrs then arrs[n := arrs[n].(content := Plus(arrs[n].content, d))] else arrs
  }

  function Published(m: Catalog, n: Name, d: ZSet<Row>, r: View): Catalog {
    m.(views := m.views[n := r], arrs := PublishedArrs(m.arrs, n, d))
  }
}

// What a single view's step does to the invariant.
module Passes {
  import opened ZSets
  import opened Rows
  import opened DepGraph
  import opened Catalogs
  import opened PassState

  lemma PassInvHolds(m0: Catalog, m: Catalog, pending: Inputs, todo: set<Name>)
    requires SameCatalog(m0, m) && todo <= m.views.Keys && todo !! pending.Keys
    requires forall n {:trigger Moved(m0, m, pending, n)} :: Moved(m0, m, pending, n)
    requires forall n {:trigger NodeState(m0, m, pending, todo, n)} :: n in m.views ==> NodeState(m0, m, pending, todo, n)
    requires forall n {:trigger ArrangementSound(m, n)} :: n in m.arrs ==> ArrangementSound(m, n)
    ensures PassInv(m0, m, pending, todo)
  {
  }

  lemma StashKept(m0: Catalog, m: Catalog, pending: Inputs, todo: set<Name>, n: Name)
    requires PassInv(m0, m, pending, todo) && n in m0.views
    ensures m.views[n].stash == m0.views[n].stash
  {
    assert NodeState(m0, m, pending, todo, n);
  }

  lemma ReadyToStep(m0: Catalog, m: Catalog, pending: Inputs, todo: set<Name>, n: Name)
    requires PassInv(m0, m, pending, todo) && n in todo && Steppable(m0, todo, n)
    requires m0.tables.Keys !! m0.views.Keys
    ensures Ready(m.views[n], m.arrs, pending)
  {
    var v := m.views[n];
    assert NodeState(m0, m, pending, todo, n);
    forall s | s in v.shared
      ensures && s in m.arrs && s in v.sources && !m.arrs[s].needsBackfill
              && m.arrs[s].content == if s in pending && pending[s] != NO_ROWS then Plus(v.live.seen[s], pending[s]) else v.live.seen[s]
    {
      assert ArrangementSound(m, s) && Moved(m0, m, pending, s);
      if s in m0.views {
        StashKept(m0, m, pending, todo, s);
      }
    }
  }

  lemma SteppedIsStep(v: View, pending: Inputs, seqNo: nat)
    requires v.stash.None? && v.live.seen.Keys == v.sources && v.live.result == Answer(v, v.live.seen)
    ensures IsStep(v, pending, seqNo, Stepped(v, pending, seqNo))
  {
    SteppedAnswers(v, pending, seqNo);
  }

  lemma DeltaMoves(v: View, pending: Inputs, seqNo: nat, r: View)
    requires IsStep(v, pending, seqNo, r) && v.live.result == Answer(v, v.live.seen)
    ensures Normal(Delta(v, pending, r))
    ensures r.live.result == if Delta(v, pending, r) == NO_ROWS then v.live.result else Plus(v.live.result, Delta(v, pending, r))
  {
    PlusMinus(r.live.result, v.live.result);
  }

  lemma PublishedMoves(m0: Catalog, m: Catalog, pending: Inputs, n: Name, r: View, d: ZSet<Row>)
    requires n in m.views && n in m0.views && m.views[n] == m0.views[n] && n !in m.tables && n !in m0.tables && n !in pending
    requires IsStep(m0.views[n], pending, m.commitSeq, r) && d == Delta(m0.views[n], pending, r)
    requires m0.views[n].live.result == Answer(m0.views[n], m0.views[n].live.seen)
    ensures Moved(m0, Published(m, n, d, r), PublishedPending(pending, n, d), n)
  {
    DeltaMoves(m0.views[n], pending, m.commitSeq, r);
  }

  lemma PublishedSound(m0: Catalog, m: Catalog, pending: Inputs, n: Name, r: View, next: Catalog)
    requires n in m0.views && ViewSound(m0, n) && n !in m0.views[n].sources
    requires forall s :: s in m0.views[n].sources ==> Moved(m0, m, pending, s) && Content(next, s) == Content(m, s)
    requires IsStep(m0.views[n], pending, m.commitSeq, r)
    requires n in next.views && next.views[n] == r
    ensures ViewSound(next, n)
  {
    forall s | s in r.sources ensures r.live.seen[s] == Content(next, s) {
      assert Moved(m0, m, pending, s);
    }
  }

  lemma PublishedNode(m0: Catalog, m: Catalog, pending: Inputs, todo: set<Name>, n: Name, d: ZSet<Row>, next: Catalog, k: Name)
    requires k in m.views && k in m0.views && k != n && n in todo
    requires NodeState(m0, m, pending, todo, k)
    requires k in next.views && next.commitSeq == m.commitSeq && next.views[k] == m.views[k]
    requires forall x :: x in m.views[k].sources && x !in todo ==> Content(next, x) == Content(m, x)
    requires m0.views[k].sources == m.views[k].sources
    ensures NodeState(m0, next, PublishedPending(pending, n, d), todo - {n}, k)
  {
    if k !in todo {
      assert Changed(m0.views[k], PublishedPending(pending, n, d)) == Changed(m0.views[k], pending);
    }
  }

  lemma PublishedArrangement(m: Catalog, n: Name, r: View, d: ZSet<Row>, next: Catalog, k: Name)
    requires next == Published(m, n, d, r) && n in m.views && n !in m.tables
    requires k in m.arrs && ArrangementSound(m, k) && m.views[n].stash.None? && r.stash.None?
    requires k != n ==> Content(next, k) == Content(m, k)
    requires r.live.result == if d == NO_ROWS then m.views[n].live.result else Plus(m.views[n].live.result, d)
    ensures ArrangementSound(next, k)
  {
  }

  lemma ChangedKept(v: View, pending: Inputs, n: Name, d: ZSet<Row>)
    requires n !in v.sources
    ensures Changed(v, PublishedPending(pending, n, d)) == Changed(v, pending)
  {
  }

  // What publishing n needs to know of the pass so far.
  ghost predicate AtView(m0: Catalog, m: Catalog, pending: Inputs, todo: set<Name>, n: Name, r: View, d: ZSet<Row>) {
    && n in m0.views && n in todo && n !in pending && n !in m0.tables && n !in m.tables
    && n in m.views && m.views[n] == m0.views[n] && n !in m0.views[n].sources && m0.views[n].sources !! todo
    && ViewSound(m0, n) && IsStep(m0.views[n], pending, m.commitSeq, r) && d == Delta(m0.views[n], pending, r)
  }

  lemma OthersKept(m: Catalog, n: Name, r: View, d: ZSet<Row>, k: Name)
    requires k != n
    ensures Content(Published(m, n, d, r), k) == Content(m, k)
  {
  }

  lemma PublishMovesAll(m0: Catalog, m: Catalog, pending: Inputs, todo: set<Name>, n: Name, r: View, d: ZSet<Row>, next: Catalog)
    requires AtView(m0, m, pending, todo, n, r, d) && next == Published(m, n, d, r)
    requires forall k {:trigger Moved(m0, m, pending, k)} :: Moved(m0, m, pending, k)
    ensures forall k {:trigger Moved(m0, next, PublishedPending(pending, n, d), k)} ::
              Moved(m0, next, PublishedPending(pending, n, d), k)
  {
    forall k ensures Moved(m0, next, PublishedPending(pending, n, d), k) {
      if k == n {
        PublishedMoves(m0, m, pending, n, r, d);
      } else {
        OthersKept(m, n, r, d, k);
        StillMoved(m0, m, pending, n, d, next, k);
      }
    }
  }

  lemma StillMoved(m0: Catalog, m: Catalog, pending: Inputs, n: Name, d: ZSet<Row>, next: Catalog, k: Name)
    requires k != n && Content(next, k) == Content(m, k)
    requires Moved(m0, m, pending, k)
    ensures Moved(m0, next, PublishedPending(pending, n, d), k)
  {
  }

  lemma PublishNodes(m0: Catalog, m: Catalog, pending: Inputs, todo: set<Name>, n: Name, r: View, d: ZSet<Row>, next: Catalog)
    requires AtView(m0, m, pending, todo, n, r, d) && next == Published(m, n, d, r)
    requires SameCatalog(m0, m)
    requires forall k {:trigger Moved(m0, m, pending, k)} :: Moved(m0, m, pending, k)
    requires forall k {:trigger NodeState(m0, m, pending, todo, k)} :: k in m.views ==> NodeState(m0, m, pending, todo, k)
    ensures forall k {:trigger NodeState(m0, next, PublishedPending(pending, n, d), todo - {n}, k)} ::
              k in next.views ==> NodeState(m0, next, PublishedPending(pending, n, d), todo - {n}, k)
  {
    forall k | k in next.views ensures NodeState(m0, next, PublishedPending(pending, n, d), todo - {n}, k) {
      if k == n {
        forall s | s in r.sources ensures Moved(m0, m, pending, s) && Content(next, s) == Content(m, s) {
          OthersKept(m, n, r, d, s);
        }
        PublishedSound(m0, m, pending, n, r, next);
        ChangedKept(m0.views[n], pending, n, d);
      } else {
        forall s | s in m.views[k].sources && s !in todo ensures Content(next, s) == Content(m, s) {
          OthersKept(m, n, r, d, s);
        }
        PublishedNode(m0, m, pending, todo, n, d, next, k);
      }
    }
  }

  lemma PublishArrangements(m0: Catalog, m: Catalog, pending: Inputs, todo: set<Name>, n: Name, r: View, d: ZSet<Row>,
                            next: Catalog)
    requires AtView(m0, m, pending, todo, n, r, d) && next == Published(m, n, d, r)
    requires forall k {:trigger ArrangementSound(m, k)} :: k in m.arrs ==> ArrangementSound(m, k)
    ensures forall k {:trigger ArrangementSound(next, k)} :: k in next.arrs ==> ArrangementSound(next, k)
  {
    DeltaMoves(m0.views[n], pending, m.commitSeq, r);
    forall k | k in next.arrs ensures ArrangementSound(next, k) {
      PublishedArrangement(m, n, r, d, next, k);
    }
  }

  lemma AtViewHolds(m0: Catalog, m: Catalog, pending: Inputs, todo: set<Name>, n: Name, r: View, d: ZSet<Row>)
    requires PassInv(m0, m, pending, todo) && n in todo && n !in m0.tables
    requires Steppable(m0, todo, n) && n !in m0.views[n].sources
    requires IsStep(m0.views[n], pending, m.commitSeq, r) && d == Delta(m0.views[n], pending, r)
    ensures AtView(m0, m, pending, todo, n, r, d)
  {
    assert NodeState(m0, m, pending, todo, n);
  }

  // Stepping and publishing one view moves it out of `todo`.
  lemma PublishKeeps(m0: Catalog, m: Catalog, pending: Inputs, todo: set<Name>, n: Name, r: View, d: ZSet<Row>, next: Catalog)
    requires PassInv(m0, m, pending, todo) && AtView(m0, m, pending, todo, n, r, d)
    requires next == Published(m, n, d, r)
    ensures PassInv(m0, next, PublishedPending(pending, n, d), todo - {n})
  {
    PublishMovesAll(m0, m, pending, todo, n, r, d, next);
    PublishArrangements(m0, m, pending, todo, n, r, d, next);
    PublishNodes(m0, m, pending, todo, n, r, d, next);
    PassInvHolds(m0, next, PublishedPending(pending, n, d), todo - {n});
  }
}

// Restoring pending views, and the state a pass starts from.
module Realizing {
  import opened ZSets
  import opened Rows
  import opened DepGraph
  import opened Catalogs
  import opened PassState

  // Decode the stash into the live circuit.
  function Restored(v: View): View {
    if v.stash.Some? then v.(live := v.stash.value, stash := None) else v
  }

  // Realize the named views and fill the arrangements that waited for them.
  function Realized(m: Catalog, names: set<Name>): Catalog {
    m.(views := map n | n in m.views :: if n in names then Restored(m.views[n]) else m.views[n],
       arrs := map n | n in m.arrs :: if n in names && NeedsFill(m, n) then Arrangement(Content(m, n), false) else m.arrs[n])
  }

  predicate NeedsFill(m: Catalog, n: Name)
    requires n in m.arrs
  {
    n in m.views && m.views[n].stash.Some? && m.arrs[n].needsBackfill
  }

  lemma RealizedContent(m: Catalog, names: set<Name>, n: Name)
    ensures Content(Realized(m, names), n) == Content(m, n)
  {
  }

  lemma RealizedView(m: Catalog, names: set<Name>, n: Name)
    requires n in m.views && ViewSound(m, n) && Defined(m, n)
    ensures ViewSound(Realized(m, names), n) && Defined(Realized(m, names), n)
  {
    forall s | s in m.views[n].sources ensures Content(Realized(m, names), s) == Content(m, s) {
      RealizedContent(m, names, s);
    }
  }

  lemma RealizedArrangement(m: Catalog, names: set<Name>, n: Name)
    requires n in m.arrs && ArrangementSound(m, n)
    ensures ArrangementSound(Realized(m, names), n)
  {
    RealizedContent(m, names, n);
  }

  // Realizing changes nothing a reader can see.
  lemma RealizedSound(m: Catalog, names: set<Name>)
    requires Sound(m)
    ensures Sound(Realized(m, names)) && SameCatalog(m, Realized(m, names))
  {
    forall n | n in m.views ensures ViewSound(Realized(m, names), n) && Defined(Realized(m, names), n) {
      assert ViewSound(m, n) && Defined(m, n);
      RealizedView(m, names, n);
    }
    forall n | n in m.arrs ensures ArrangementSound(Realized(m, names), n) {
      assert ArrangementSound(m, n);
      RealizedArrangement(m, names, n);
    }
    SoundHolds(m, Realized(m, names));
  }

  lemma SoundHolds(m: Catalog, r: Catalog)
    requires WellFormed(m) && SameCatalog(m, r) && forall t :: t in r.tables ==> Normal(r.tables[t])
    requires forall n {:trigger Defined(r, n)} :: n in r.views ==> Defined(r, n)
    requires forall n {:trigger ViewSound(r, n)} :: n in r.views ==> ViewSound(r, n)
    requires forall n {:trigger ArrangementSound(r, n)} :: n in r.arrs ==> ArrangementSound(r, n)
    ensures Sound(r)
  {
  }

  method RealizeOne(m: Catalog, n: Name) returns (r: Catalog)
    requires m.tables.Keys !! m.views.Keys
    ensures r == Realized(m, {n})
  {
    r := m;
    if n in m.views && m.views[n].stash.Some? {
      r := r.(views := r.views[n := Restored(m.views[n])]);
      if n in m.arrs && m.arrs[n].needsBackfill {
        r := r.(arrs := r.arrs[n := Arrangement(r.views[n].live.result, false)]);
      }
    }
    RealizeOneIs(m, n, r);
  }

  lemma RealizeOneIs(m: Catalog, n: Name, r: Catalog)
    requires r.tables == m.tables && r.g == m.g && r.commitSeq == m.commitSeq && r.lastCreated == m.lastCreated
    requires r.views == if n in m.views then m.views[n := Restored(m.views[n])] else m.views
    requires r.arrs == if n in m.arrs && NeedsFill(m, n) then m.arrs[n := Arrangement(Restored(m.views[n]).live.result, false)] else m.arrs
    requires m.tables.Keys !! m.views.Keys
    ensures r == Realized(m, {n})
  {
    assert r.views == Realized(m, {n}).views;
    assert r.arrs == Realized(m, {n}).arrs;
  }

  lemma RealizedTwice(m: Catalog, a: set<Name>, b: set<Name>)
    ensures Realized(Realized(m, a), b) == Realized(m, a + b)
  {
    var r := Realized(Realized(m, a), b);
    forall n | n in m.arrs ensures r.arrs[n] == Realized(m, a + b).arrs[n] {
      RealizedContent(m, a, n);
    }
    assert r.views == Realized(m, a + b).views;
    assert r.arrs == Realized(m, a + b).arrs;
  }

  method RealizeAll(m: Catalog, worklist: seq<Name>) returns (r: Catalog)
    requires m.tables.Keys !! m.views.Keys
    ensures r == Realized(m, Elements(worklist))
  {
    r := m;
    assert Realized(m, {}).views == m.views && Realized(m, {}).arrs == m.arrs;
    for i := 0 to |worklist|
      invariant r == Realized(m, Elements(worklist[..i]))
    {
      RealizedTwice(m, Elements(worklist[..i]), {worklist[i]});
      assert worklist[..i + 1] == worklist[..i] + [worklist[i]];
      ElementsAppend(worklist[..i], worklist[i]);
      r := RealizeOne(r, worklist[i]);
    }
    assert worklist[..|worklist|] == worklist;
  }

  // The views to realize: the affected ones and all they transitively read.
  ghost predicate InClosure(g: Graph, topo: seq<Name>, x: Name) {
    x in topo || exists t :: t in topo && Reach(g.dependencies, t, x)
  }

  method RealizeWorklist(m: Catalog, topo: seq<Name>) returns (worklist: seq<Name>)
    requires forall n :: n !in m.views ==> Out(m.g.dependencies, n) == {}
    ensures forall x :: x in worklist <==> InClosure(m.g, topo, x)
  {
    var e := m.g.dependencies;
    worklist := topo;
    var seen := Elements(topo);
    var i := 0;
    while i < |worklist|
      invariant 0 <= i <= |worklist| && Elements(worklist) == seen
      invariant Elements(topo) <= seen
      invariant forall x :: x in seen ==> InClosure(m.g, topo, x) && (x in Elements(topo) || x in Targets(e))
      invariant forall j :: 0 <= j < i ==> Out(e, worklist[j]) <= seen
      decreases Elements(topo) + Targets(e) - seen, |worklist| - i
    {
      var name := worklist[i];
      assert name in Elements(worklist);
      if name in m.views {
        worklist := Extend(worklist, Out(e, name) - seen);
        ClosureStep(m.g, topo, name);
        assert Out(e, name) <= Targets(e);
        seen := seen + Out(e, name);
      }
      i := i + 1;
    }
    ClosureComplete(m.g, topo, worklist);
  }

  // Enqueue keeps what is already there.
  method Extend(queue0: seq<Name>, nodes: set<Name>) returns (queue: seq<Name>)
    ensures queue0 <= queue && Elements(queue) == Elements(queue0) + nodes
    ensures nodes == {} ==> queue == queue0
  {
    queue := queue0;
    var todo := nodes;
    while todo != {}
      invariant todo <= nodes && queue0 <= queue && (nodes == {} ==> queue == queue0)
      invariant Elements(queue) == Elements(queue0) + (nodes - todo)
      decreases todo
    {
      var n :| n in todo;
      todo := todo - {n};
      ElementsAppend(queue, n);
      queue := queue + [n];
    }
  }

  lemma ClosureStep(g: Graph, topo: seq<Name>, name: Name)
    requires InClosure(g, topo, name)
    ensures forall d :: d in Out(g.dependencies, name) ==> InClosure(g, topo, d)
  {
    forall d | d in Out(g.dependencies, name) ensures InClosure(g, topo, d) {
      if name in topo {
        ReachEdge(g.dependencies, name, d);
      } else {
        var t :| t in topo && Reach(g.dependencies, t, name);
        ReachStep(g.dependencies, t, name, d);
      }
    }
  }

  lemma ClosureComplete(g: Graph, topo: seq<Name>, worklist: seq<Name>)
    requires Elements(topo) <= Elements(worklist)
    requires forall x :: x in worklist ==> Out(g.dependencies, x) <= Elements(worklist)
    ensures forall x :: InClosure(g, topo, x) ==> x in worklist
  {
    forall x | InClosure(g, topo, x) ensures x in worklist {
      assert x in topo ==> x in Elements(topo);
      if x !in topo {
        var t :| t in topo && Reach(g.dependencies, t, x);
        var p :| IsPath(g.dependencies, p) && p[0] == t && p[|p| - 1] == x;
        assert t in Elements(topo);
        ClosedUnderPath(g.dependencies, Elements(worklist), p);
      }
    }
  }
}

// The start of a pass: base tables and their arrangements take the deltas.
module PassStart {
  import opened ZSets
  import opened Rows
  import opened DepGraph
  import opened TopologicalOrders
  import opened KahnState
  import opened Catalogs
  import opened PassState
  import opened Passes
  import opened Realizing

  function BumpedArr(arrs: map<Name, Arrangement>, live: Inputs): map<Name, Arrangement> {
    map n | n in arrs :: if n in live then arrs[n].(content := Plus(arrs[n].content, live[n])) else arrs[n]
  }

  function BumpedTables(tables: Inputs, live: Inputs): Inputs {
    map n | n in tables :: if n in live then Plus(tables[n], live[n]) else tables[n]
  }

  function Bumped(m: Catalog, live: Inputs): Catalog {
    m.(tables := BumpedTables(m.tables, live), arrs := BumpedArr(m.arrs, live), commitSeq := m.commitSeq + 1)
  }

  // The non-empty deltas of the commit, by table.
  ghost predicate Live(m: Catalog, live: Inputs) {
    live.Keys <= m.tables.Keys && forall t :: t in live ==> Normal(live[t]) && live[t] != NO_ROWS
  }

  // apply_to_arrangements for every changed source.
  method ApplySources(m: Catalog, live: Inputs) returns (arrs: map<Name, Arrangement>)
    ensures arrs == BumpedArr(m.arrs, live)
  {
    arrs := m.arrs;
    var todo := live.Keys;
    assert BumpedArr(m.arrs, live - todo) == m.arrs;
    while todo != {}
      invariant todo <= live.Keys && arrs == BumpedArr(m.arrs, live - todo)
      decreases todo
    {
      var s :| s in todo;
      ghost var was := live - todo;
      todo := todo - {s};
      assert forall n :: n in live - todo <==> n in was || n == s;
      if s in arrs {
        arrs := arrs[s := arrs[s].(content := Plus(arrs[s].content, live[s]))];
      }
      assert arrs == BumpedArr(m.arrs, live - todo);
    }
    assert live - todo == live;
  }

  lemma BumpedRealized(m: Catalog, live: Inputs, names: set<Name>)
    requires m.tables.Keys !! m.views.Keys && live.Keys <= m.tables.Keys
    ensures Realized(Bumped(m, live), names) == Bumped(Realized(m, names), live)
  {
    var a, b := Realized(Bumped(m, live), names), Bumped(Realized(m, names), live);
    forall n | n in m.arrs ensures a.arrs[n] == b.arrs[n] {
    }
    assert a.arrs == b.arrs;
    assert a.views == b.views;
  }

  // The affected views are exactly those downstream of a changed table.
  ghost predicate Affected(m: Catalog, live: Inputs, n: Name) {
    exists c :: c in live && Reach(m.g.dependents, c, n)
  }

  lemma AffectedIsCone(m: Catalog, live: Inputs, changed: seq<Name>, n: Name)
    requires WellFormed(m) && live.Keys <= m.tables.Keys && Elements(changed) == live.Keys
    ensures InCone(m.g.dependents, changed, n) <==> Affected(m, live, n)
    ensures Affected(m, live, n) ==> n in m.views
  {
    assert forall c :: c in changed <==> c in Elements(changed);
    if Affected(m, live, n) {
      var c :| c in live && Reach(m.g.dependents, c, n);
      ReachedIsView(m, c, n);
    }
  }

  lemma ReachedIsView(m: Catalog, c: Name, n: Name)
    requires WellFormed(m) && Reach(m.g.dependents, c, n)
    ensures n in m.views
  {
    var p :| IsPath(m.g.dependents, p) && p[0] == c && p[|p| - 1] == n;
    assert p[|p| - 2 + 1] in Out(m.g.dependents, p[|p| - 2]);
    assert p[|p| - 2] in Out(m.g.dependencies, n);
  }

  // A view outside the affected set reads nothing that changes.
  lemma UnaffectedReads(m: Catalog, live: Inputs, n: Name, s: Name)
    requires WellFormed(m) && n in m.views && !Affected(m, live, n) && s in m.views[n].sources
    ensures s !in live && !Affected(m, live, s)
  {
    assert s in Out(m.g.dependencies, n);
    assert n in Out(m.g.dependents, s);
    if s in live {
      ReachEdge(m.g.dependents, s, n);
    } else if Affected(m, live, s) {
      var c :| c in live && Reach(m.g.dependents, c, s);
      ReachStep(m.g.dependents, c, s, n);
    }
  }

  lemma StartMoved(m: Catalog, live: Inputs, n: Name)
    requires WellFormed(m) && Live(m, live)
    ensures Moved(m, Bumped(m, live), live, n)
    ensures n !in live ==> Content(Bumped(m, live), n) == Content(m, n)
  {
  }

  lemma StartNode(m: Catalog, live: Inputs, todo: set<Name>, n: Name)
    requires Sound(m) && Live(m, live) && n in m.views
    requires forall x :: x in todo <==> Affected(m, live, x)
    ensures NodeState(m, Bumped(m, live), live, todo, n)
  {
    if n !in todo {
      assert ViewSound(m, n);
      forall s | s in m.views[n].sources ensures s !in live && s !in todo && Content(Bumped(m, live), s) == Content(m, s) {
        UnaffectedReads(m, live, n, s);
        StartMoved(m, live, s);
      }
      assert Changed(m.views[n], live) == map[];
    }
  }

  lemma StartArrangement(m: Catalog, live: Inputs, n: Name)
    requires WellFormed(m) && Live(m, live) && n in m.arrs && ArrangementSound(m, n)
    ensures ArrangementSound(Bumped(m, live), n)
  {
  }

  lemma StartMovedAll(m: Catalog, live: Inputs, next: Catalog)
    requires WellFormed(m) && Live(m, live) && next == Bumped(m, live)
    ensures forall n {:trigger Moved(m, next, live, n)} :: Moved(m, next, live, n)
  {
    forall n ensures Moved(m, next, live, n) {
      StartMoved(m, live, n);
    }
  }

  lemma StartNodeAll(m: Catalog, live: Inputs, todo: set<Name>, next: Catalog)
    requires Sound(m) && Live(m, live) && next == Bumped(m, live)
    requires forall x :: x in todo <==> Affected(m, live, x)
    ensures forall n {:trigger NodeState(m, next, live, todo, n)} :: n in next.views ==> NodeState(m, next, live, todo, n)
  {
    forall n | n in next.views ensures NodeState(m, next, live, todo, n) {
      StartNode(m, live, todo, n);
    }
  }

  lemma StartArrangementAll(m: Catalog, live: Inputs, next: Catalog)
    requires WellFormed(m) && Live(m, live) && next == Bumped(m, live)
    requires forall n {:trigger ArrangementSound(m, n)} :: n in m.arrs ==> ArrangementSound(m, n)
    ensures forall n {:trigger ArrangementSound(next, n)} :: n in next.arrs ==> ArrangementSound(next, n)
  {
    forall n | n in next.arrs ensures ArrangementSound(next, n) {
      StartArrangement(m, live, n);
    }
  }

  lemma PassStarts(m: Catalog, live: Inputs, todo: set<Name>, next: Catalog)
    requires Sound(m) && Live(m, live) && next == Bumped(m, live)
    requires todo <= m.views.Keys && forall x :: x in todo <==> Affected(m, live, x)
    ensures PassInv(m, next, live, todo)
  {
    StartMovedAll(m, live, next);
    StartNodeAll(m, live, todo, next);
    StartArrangementAll(m, live, next);
    PassInvHolds(m, next, live, todo);
  }

  // ---- levels ----

  // Every affected view sits strictly above whatever affected it.
  ghost predicate LevelsTrue(m: Catalog, changed: set<Name>, listed: set<Name>, levelOf: map<Name, nat>) {
    && levelOf.Keys == changed + listed
    && listed <= m.views.Keys
    && forall n, s {:trigger levelOf[n], levelOf[s]} :: n in listed && s in m.views[n].sources && s in levelOf ==> levelOf[s] < levelOf[n]
  }

  // levels[k] lists the views of level k + 1, each once.
  ghost predicate Grouped(listed: set<Name>, levelOf: map<Name, nat>, levels: seq<seq<Name>>)
    requires listed <= levelOf.Keys
  {
    && (forall n :: n in listed ==> 1 <= levelOf[n] <= |levels|)
    && (forall k {:trigger levels[k]} :: 0 <= k < |levels| ==> OneLevel(listed, levelOf, levels[k], k))
  }

  ghost predicate OneLevel(listed: set<Name>, levelOf: map<Name, nat>, level: seq<Name>, k: nat)
    requires listed <= levelOf.Keys
  {
    NoDuplicates(level) && forall n :: n in level <==> n in listed && levelOf[n] == k + 1
  }

  // 1 + the highest level among the sources that have one.
  method LevelAbove(sources: set<Name>, levelOf: map<Name, nat>) returns (lvl: nat)
    ensures lvl >= 1 && forall s :: s in sources && s in levelOf ==> levelOf[s] < lvl
  {
    lvl := 1;
    var todo := sources;
    while todo != {}
      invariant lvl >= 1 && todo <= sources
      invariant forall s :: s in sources - todo && s in levelOf ==> levelOf[s] < lvl
      decreases todo
    {
      var s :| s in todo;
      todo := todo - {s};
      if s in levelOf && lvl < levelOf[s] + 1 {
        lvl := levelOf[s] + 1;
      }
    }
  }

  method Append(levels0: seq<seq<Name>>, lvl: nat, n: Name) returns (levels: seq<seq<Name>>)
    requires lvl >= 1
    ensures |levels| >= lvl && |levels| >= |levels0|
    ensures forall k :: 0 <= k < |levels| ==>
              levels[k] == (if k < |levels0| then levels0[k] else []) + (if k == lvl - 1 then [n] else [])
  {
    levels := levels0;
    while |levels| < lvl
      invariant |levels0| <= |levels|
      invariant forall k :: 0 <= k < |levels| ==> levels[k] == if k < |levels0| then levels0[k] else []
    {
      levels := levels + [[]];
    }
    levels := levels[lvl - 1 := levels[lvl - 1] + [n]];
  }

  lemma GroupedAppend(listed: set<Name>, levelOf: map<Name, nat>, levels0: seq<seq<Name>>, n: Name, lvl: nat,
                      levels: seq<seq<Name>>)
    requires listed <= levelOf.Keys && Grouped(listed, levelOf, levels0) && n !in listed
    requires 1 <= lvl <= |levels| && |levels| >= |levels0|
    requires forall k :: 0 <= k < |levels| ==>
               levels[k] == (if k < |levels0| then levels0[k] else []) + (if k == lvl - 1 then [n] else [])
    ensures Grouped(listed + {n}, levelOf[n := lvl], levels)
  {
    forall k | 0 <= k < |levels| ensures OneLevel(listed + {n}, levelOf[n := lvl], levels[k], k) {
      var was := if k < |levels0| then levels0[k] else [];
      assert OneLevel(listed, levelOf, was, k);
      OneLevelAppend(listed, levelOf, was, k, n, lvl);
    }
  }

  lemma OneLevelAppend(listed: set<Name>, levelOf: map<Name, nat>, level: seq<Name>, k: nat, n: Name, lvl: nat)
    requires listed <= levelOf.Keys && n !in listed && lvl >= 1
    requires OneLevel(listed, levelOf, level, k)
    ensures OneLevel(listed + {n}, levelOf[n := lvl], level + (if k == lvl - 1 then [n] else []), k)
  {
  }

  // No view of the cone comes before one of its own sources.
  ghost predicate Topological(m: Catalog, topo: seq<Name>) {
    NoDuplicates(topo) && forall i, j :: 0 <= i <= j < |topo| ==> topo[j] !in Out(m.g.dependencies, topo[i])
  }

  lemma LevelsAppend(m: Catalog, changed: set<Name>, listed: set<Name>, levelOf: map<Name, nat>, n: Name, lvl: nat)
    requires LevelsTrue(m, changed, listed, levelOf)
    requires n in m.views && n !in changed && n !in listed && n !in m.views[n].sources
    requires forall k :: k in listed ==> n !in m.views[k].sources
    requires forall s :: s in m.views[n].sources && s in levelOf ==> levelOf[s] < lvl
    ensures LevelsTrue(m, changed, listed + {n}, levelOf[n := lvl])
  {
  }

  method AssignLevels(m: Catalog, changed: set<Name>, topo: seq<Name>)
    returns (levelOf: map<Name, nat>, levels: seq<seq<Name>>)
    requires WellFormed(m) && Topological(m, topo) && Elements(topo) !! changed && Elements(topo) <= m.views.Keys
    ensures LevelsTrue(m, changed, Elements(topo), levelOf) && Grouped(Elements(topo), levelOf, levels)
  {
    levelOf := map n | n in changed :: 0;
    levels := [];
    for i := 0 to |topo|
      invariant LevelsTrue(m, changed, Elements(topo[..i]), levelOf)
      invariant Grouped(Elements(topo[..i]), levelOf, levels)
    {
      var n := topo[i];
      assert n in Elements(topo);
      assert topo[..i + 1] == topo[..i] + [n];
      ElementsAppend(topo[..i], n);
      var lvl := LevelAbove(m.views[n].sources, levelOf);
      ghost var before := levels;
      levels := Append(levels, lvl, n);
      GroupedAppend(Elements(topo[..i]), levelOf, before, n, lvl, levels);
      LevelsAppend(m, changed, Elements(topo[..i]), levelOf, n, lvl);
      levelOf := levelOf[n := lvl];
    }
    assert topo[..|topo|] == topo;
  }
}

// One circuit pass for all of a commit's table deltas.
module Propagation {
  import opened ZSets
  import opened Rows
  import opened DepGraph
  import opened KahnState
  import opened TopologicalOrders
  import opened Catalogs
  import opened PassState
  import opened Passes
  import opened Realizing
  import opened PassStart

  method StepView(v: View, arrs: map<Name, Arrangement>, pending: Inputs, seqNo: nat) returns (r: View)
    requires Ready(v, arrs, pending)
    ensures r == Stepped(v, pending, seqNo)
  {
    var inputs := Changed(v, pending);
    if inputs == map[] {
      return v;
    }
    var seen := map s | s in v.sources :: if s in inputs then Plus(v.live.seen[s], inputs[s]) else v.live.seen[s];
    var out := Minus(Answer(v, seen), v.live.result);
    r := v.(live := Core(seen, Plus(v.live.result, out)), batch := out, steps := v.steps + 1, generation := seqNo);
  }

  ghost predicate StepOf(m: Catalog, pending: Inputs, n: Name, r: View) {
    && n in m.views && m.views[n].live.seen.Keys == m.views[n].sources
    && r == Stepped(m.views[n], pending, m.commitSeq)
  }

  // All views of one level step from the same frozen state, in any order.
  method StepLevel(m: Catalog, pending: Inputs, level: seq<Name>) returns (results: seq<View>)
    requires forall n :: n in level ==> n in m.views && Ready(m.views[n], m.arrs, pending)
    ensures |results| == |level|
    ensures forall i {:trigger results[i]} :: 0 <= i < |level| ==> StepOf(m, pending, level[i], results[i])
  {
    results := [];
    for i := 0 to |level|
      invariant |results| == i
      invariant forall j {:trigger results[j]} :: 0 <= j < i ==> StepOf(m, pending, level[j], results[j])
    {
      assert level[i] in level;
      var r := StepView(m.views[level[i]], m.arrs, pending, m.commitSeq);
      results := results + [r];
    }
  }

  // Everything a level reads is final: no source of its views is in `todo`.
  ghost predicate LevelReady(m0: Catalog, todo: set<Name>, level: seq<Name>) {
    && NoDuplicates(level)
    && forall n :: n in level ==> n in todo && n in m0.views && Steppable(m0, todo, n) && n !in m0.tables && n !in m0.views[n].sources
  }

  lemma ResultIsStep(m0: Catalog, m: Catalog, pending: Inputs, todo: set<Name>, n: Name)
    requires PassInv(m0, m, pending, todo) && n in todo && Steppable(m0, todo, n)
    ensures n in m.views && m.views[n] == m0.views[n] && m0.views[n].live.seen.Keys == m0.views[n].sources
    ensures IsStep(m0.views[n], pending, m.commitSeq, Stepped(m0.views[n], pending, m.commitSeq))
  {
    assert NodeState(m0, m, pending, todo, n);
    SteppedIsStep(m0.views[n], pending, m.commitSeq);
  }

  // A result computed from the frozen pending map is still the right step
  // after other views of its level were published.
  lemma StepKept(v: View, pending: Inputs, seqNo: nat, r: View, n: Name, d: ZSet<Row>)
    requires IsStep(v, pending, seqNo, r) && n !in v.sources
    ensures IsStep(v, PublishedPending(pending, n, d), seqNo, r)
    ensures Delta(v, PublishedPending(pending, n, d), r) == Delta(v, pending, r)
  {
    ChangedKept(v, pending, n, d);
  }

  // The results of a level that wait to be published.
  ghost predicate Unpublished(m0: Catalog, level: seq<Name>, results: seq<View>, from: nat, pending: Inputs, seqNo: nat)
    requires |results| == |level| && forall n :: n in level ==> n in m0.views
  {
    forall i {:trigger results[i]} :: from <= i < |level| ==> IsStep(m0.views[level[i]], pending, seqNo, results[i])
  }

  method PublishOne(ghost m0: Catalog, m: Catalog, pending: Inputs, ghost todo: set<Name>, n: Name, r: View)
    returns (m': Catalog, pending': Inputs)
    requires PassInv(m0, m, pending, todo) && n in todo && Steppable(m0, todo, n)
    requires n !in m0.tables && n !in m0.views[n].sources && n in m.views
    requires IsStep(m0.views[n], pending, m.commitSeq, r)
    ensures PassInv(m0, m', pending', todo - {n}) && m'.commitSeq == m.commitSeq && m'.tables == m.tables
    ensures pending' == PublishedPending(pending, n, Delta(m0.views[n], pending, r))
  {
    ghost var d := Delta(m0.views[n], pending, r);
    assert m.views[n] == m0.views[n] by { assert NodeState(m0, m, pending, todo, n); }
    AtViewHolds(m0, m, pending, todo, n, r, d);
    PublishKeeps(m0, m, pending, todo, n, r, d, Published(m, n, d, r));
    var applied := Changed(m.views[n], pending) != map[];
    m', pending' := m.(views := m.views[n := r]), pending;
    if applied && r.batch != NO_ROWS {
      pending' := pending[n := r.batch];
      if n in m.arrs {
        m' := m'.(arrs := m.arrs[n := m.arrs[n].(content := Plus(m.arrs[n].content, r.batch))]);
      }
    }
    assert m' == Published(m, n, d, r);
  }

  method PublishNth(ghost m0: Catalog, m: Catalog, pending: Inputs, ghost todo: set<Name>, level: seq<Name>, results: seq<View>,
                    i: nat)
    returns (m': Catalog, pending': Inputs)
    requires LevelReady(m0, todo, level) && i < |level| == |results|
    requires PassInv(m0, m, pending, todo - Elements(level[..i]))
    requires Unpublished(m0, level, results, i, pending, m.commitSeq)
    ensures PassInv(m0, m', pending', todo - Elements(level[..i + 1])) && m'.commitSeq == m.commitSeq && m'.tables == m.tables
    ensures Unpublished(m0, level, results, i + 1, pending', m.commitSeq)
  {
    ghost var rest := todo - Elements(level[..i]);
    LevelStep(m0, todo, level, i, rest);
    StillInViews(m0, m, pending, rest, level[i]);
    m', pending' := PublishOne(m0, m, pending, rest, level[i], results[i]);
    WaitingKept(m0, level, results, i, pending, m.commitSeq, todo);
    assert rest - {level[i]} == todo - Elements(level[..i + 1]) by {
      assert level[..i + 1] == level[..i] + [level[i]];
      ElementsAppend(level[..i], level[i]);
    }
  }

  method PublishLevel(ghost m0: Catalog, m: Catalog, pending: Inputs, ghost todo: set<Name>, level: seq<Name>, results: seq<View>)
    returns (m': Catalog, pending': Inputs)
    requires PassInv(m0, m, pending, todo) && LevelReady(m0, todo, level)
    requires |results| == |level| && Unpublished(m0, level, results, 0, pending, m.commitSeq)
    ensures PassInv(m0, m', pending', todo - Elements(level)) && m'.commitSeq == m.commitSeq && m'.tables == m.tables
  {
    m', pending' := m, pending;
    assert todo - Elements(level[..0]) == todo;
    for i := 0 to |level|
      invariant m'.commitSeq == m.commitSeq && m'.tables == m.tables
      invariant PassInv(m0, m', pending', todo - Elements(level[..i]))
      invariant Unpublished(m0, level, results, i, pending', m.commitSeq)
    {
      m', pending' := PublishNth(m0, m', pending', todo, level, results, i);
    }
    assert level[..|level|] == level;
  }

  lemma StillInViews(m0: Catalog, m: Catalog, pending: Inputs, todo: set<Name>, n: Name)
    requires PassInv(m0, m, pending, todo) && n in todo
    ensures n in m.views
  {
  }

  lemma LevelStep(m0: Catalog, todo: set<Name>, level: seq<Name>, i: nat, rest: set<Name>)
    requires LevelReady(m0, todo, level) && i < |level| && rest == todo - Elements(level[..i])
    ensures level[i] in rest && level[i] in m0.views && Steppable(m0, rest, level[i])
    ensures level[i] !in m0.tables && level[i] !in m0.views[level[i]].sources
  {
    assert level[i] in level;
    assert level[i] !in level[..i];
  }

  lemma WaitingKept(m0: Catalog, level: seq<Name>, results: seq<View>, i: nat, pending: Inputs, seqNo: nat, todo: set<Name>)
    requires LevelReady(m0, todo, level) && i < |level| && |results| == |level|
    requires Unpublished(m0, level, results, i, pending, seqNo)
    ensures var d := Delta(m0.views[level[i]], pending, results[i]);
            Unpublished(m0, level, results, i + 1, PublishedPending(pending, level[i], d), seqNo)
  {
    var n := level[i];
    var d := Delta(m0.views[n], pending, results[i]);
    assert n in level;
    forall j | i + 1 <= j < |level|
      ensures IsStep(m0.views[level[j]], PublishedPending(pending, n, d), seqNo, results[j])
    {
      assert level[j] in level && n in todo;
      StepKept(m0.views[level[j]], pending, seqNo, results[j], n, d);
    }
  }

  method RunLevel(ghost m0: Catalog, m: Catalog, pending: Inputs, ghost todo: set<Name>, level: seq<Name>)
    returns (m': Catalog, pending': Inputs)
    requires PassInv(m0, m, pending, todo) && LevelReady(m0, todo, level)
    requires m0.tables.Keys !! m0.views.Keys
    ensures PassInv(m0, m', pending', todo - Elements(level)) && m'.commitSeq == m.commitSeq && m'.tables == m.tables
  {
    forall n | n in level ensures n in m.views && Ready(m.views[n], m.arrs, pending) {
      ReadyToStep(m0, m, pending, todo, n);
    }
    var results := StepLevel(m, pending, level);
    forall i | 0 <= i < |level| ensures IsStep(m0.views[level[i]], pending, m.commitSeq, results[i]) {
      assert level[i] in level;
      ResultIsStep(m0, m, pending, todo, level[i]);
    }
    m', pending' := PublishLevel(m0, m, pending, todo, level, results);
  }

  // ---- the whole pass ----

  ghost predicate TodoAt(topo: seq<Name>, levelOf: map<Name, nat>, k: nat, todo: set<Name>)
    requires Elements(topo) <= levelOf.Keys
  {
    forall n :: n in todo <==> n in Elements(topo) && levelOf[n] > k
  }

  // What a pass over the levels needs to know of its plan.
  ghost predicate Planned(m0: Catalog, live: Inputs, topo: seq<Name>, levelOf: map<Name, nat>, levels: seq<seq<Name>>) {
    && Sound(m0) && Live(m0, live) && LevelsTrue(m0, live.Keys, Elements(topo), levelOf)
    && Grouped(Elements(topo), levelOf, levels)
    && (forall n :: n in Elements(topo) <==> Affected(m0, live, n))
    && AllRealized(m0, topo)
  }

  ghost predicate AllRealized(m0: Catalog, topo: seq<Name>) {
    forall n {:trigger InClosure(m0.g, topo, n)} :: n in m0.views && InClosure(m0.g, topo, n) ==> m0.views[n].stash.None?
  }

  lemma SourceBelow(m: Catalog, live: Inputs, listed: set<Name>, levelOf: map<Name, nat>, n: Name, s: Name)
    requires LevelsTrue(m, live.Keys, listed, levelOf) && n in listed && s in m.views[n].sources && s in levelOf
    ensures levelOf[s] < levelOf[n]
  {
  }

  lemma ViewSteppable(m0: Catalog, live: Inputs, topo: seq<Name>, levelOf: map<Name, nat>, levels: seq<seq<Name>>,
                      k: nat, todo: set<Name>, n: Name)
    requires Planned(m0, live, topo, levelOf, levels) && TodoAt(topo, levelOf, k, todo)
    requires n in Elements(topo) && levelOf[n] == k + 1
    ensures n in todo && n in m0.views && Steppable(m0, todo, n) && n !in m0.tables && n !in m0.views[n].sources
  {
    assert n in topo && InClosure(m0.g, topo, n);
    assert ViewSound(m0, n) && Defined(m0, n);
    forall s | s in m0.views[n].sources ensures s !in todo && s != n {
      if s in todo {
        SourceBelow(m0, live, Elements(topo), levelOf, n, s);
      }
    }
    forall s | s in m0.views[n].shared && s in m0.views ensures m0.views[s].stash.None? {
      assert s in Out(m0.g.dependencies, n);
      ClosureStep(m0.g, topo, n);
    }
  }

  lemma LevelIsReady(m0: Catalog, live: Inputs, topo: seq<Name>, levelOf: map<Name, nat>, levels: seq<seq<Name>>,
                     k: nat, todo: set<Name>)
    requires Planned(m0, live, topo, levelOf, levels) && k < |levels| && TodoAt(topo, levelOf, k, todo)
    ensures LevelReady(m0, todo, levels[k])
    ensures TodoAt(topo, levelOf, k + 1, todo - Elements(levels[k]))
  {
    assert OneLevel(Elements(topo), levelOf, levels[k], k);
    forall n | n in levels[k]
      ensures n in todo && n in m0.views && Steppable(m0, todo, n) && n !in m0.tables && n !in m0.views[n].sources
    {
      ViewSteppable(m0, live, topo, levelOf, levels, k, todo, n);
    }
  }

  method RunLevels(ghost m0: Catalog, m: Catalog, live: Inputs, ghost topo: seq<Name>, ghost levelOf: map<Name, nat>,
                   levels: seq<seq<Name>>)
    returns (r: Catalog, pending: Inputs)
    requires Planned(m0, live, topo, levelOf, levels) && m == Bumped(m0, live)
    ensures PassInv(m0, r, pending, {}) && r.commitSeq == m.commitSeq && r.tables == m.tables
  {
    ghost var todo := Elements(topo);
    StartPlan(m0, m, live, topo, levelOf, levels);
    r, pending := m, live;
    for k := 0 to |levels|
      invariant PassInv(m0, r, pending, todo) && r.commitSeq == m.commitSeq && r.tables == m.tables
      invariant TodoAt(topo, levelOf, k, todo)
    {
      LevelIsReady(m0, live, topo, levelOf, levels, k, todo);
      r, pending := RunLevel(m0, r, pending, todo, levels[k]);
      todo := todo - Elements(levels[k]);
    }
    NoneLeft(topo, levelOf, levels, todo);
  }

  lemma NoneLeft(topo: seq<Name>, levelOf: map<Name, nat>, levels: seq<seq<Name>>, todo: set<Name>)
    requires Elements(topo) <= levelOf.Keys && Grouped(Elements(topo), levelOf, levels)
    requires TodoAt(topo, levelOf, |levels|, todo)
    ensures todo == {}
  {
  }

  lemma StartPlan(m0: Catalog, m: Catalog, live: Inputs, topo: seq<Name>, levelOf: map<Name, nat>, levels: seq<seq<Name>>)
    requires Planned(m0, live, topo, levelOf, levels) && m == Bumped(m0, live)
    ensures PassInv(m0, m, live, Elements(topo)) && TodoAt(topo, levelOf, 0, Elements(topo))
  {
    PassStarts(m0, live, Elements(topo), m);
  }

  // ---- what a pass does, for a reader who knows nothing of the pass ----

  // n feeds a view that a changed table reaches.
  ghost predicate Needed(m: Catalog, live: Inputs, n: Name) {
    Affected(m, live, n) || exists t :: Affected(m, live, t) && Reach(m.g.dependencies, t, n)
  }

  // A view whose inputs changed was stepped once, with all of them, and left
  // the difference of its results in its delta buffer; any other view was at
  // most restored, and only if the pass needed it.
  ghost predicate ViewReport(m: Catalog, live: Inputs, r: Catalog, n: Name)
    requires n in m.views && n in r.views
  {
    var a, b := m.views[n], r.views[n];
    if SourceChanged(m, r, a) then
      && b.steps == a.steps + 1 && b.generation == r.commitSeq && b.stash.None?
      && b.batch == Minus(Content(r, n), Content(m, n))
    else
      b == if Needed(m, live, n) then Restored(a) else a
  }

  ghost predicate PassReport(m: Catalog, live: Inputs, r: Catalog) {
    && SameCatalog(m, r) && r.tables == BumpedTables(m.tables, live) && r.commitSeq == m.commitSeq + 1
    && forall n {:trigger ViewReport(m, live, r, n)} :: n in m.views ==> ViewReport(m, live, r, n)
  }

  lemma MovedMeansChanged(m0: Catalog, r: Catalog, pending: Inputs, s: Name)
    requires Moved(m0, r, pending, s)
    ensures s in pending <==> Content(m0, s) != Content(r, s)
  {
    if s in pending {
      var x :| x in pending[s];
      assert W(Content(r, s), x) == W(Content(m0, s), x) + W(pending[s], x);
    }
  }

  lemma ChangedMeansSourceChanged(m: Catalog, m0: Catalog, r: Catalog, pending: Inputs, v: View)
    requires forall s :: s in v.sources ==> Moved(m0, r, pending, s) && Content(m0, s) == Content(m, s)
    ensures SourceChanged(m, r, v) <==> Changed(v, pending) != map[]
  {
    forall s | s in v.sources ensures (s in pending && pending[s] != NO_ROWS) <==> Content(m, s) != Content(r, s) {
      MovedMeansChanged(m0, r, pending, s);
    }
    if Changed(v, pending) != map[] {
      var s :| s in Changed(v, pending);
      assert s in v.sources && Content(m, s) != Content(r, s);
    }
  }

  lemma ReportView(m: Catalog, live: Inputs, m0: Catalog, r: Catalog, pending: Inputs, n: Name)
    requires n in m.views && n in m0.views && n in r.views && n !in m.tables && n !in m0.tables && n !in r.tables
    requires m0.views[n] == if Needed(m, live, n) then Restored(m.views[n]) else m.views[n]
    requires SourceChanged(m, r, m.views[n]) <==> Changed(m0.views[n], pending) != map[]
    requires Recorded(m0.views[n], r.views[n], pending, r.commitSeq)
    ensures ViewReport(m, live, r, n)
  {
  }

  lemma PassEndSound(m0: Catalog, r: Catalog, pending: Inputs)
    requires Sound(m0) && PassInv(m0, r, pending, {})
    requires forall t :: t in r.tables ==> Normal(r.tables[t])
    ensures Sound(r)
  {
    forall n | n in r.views ensures ViewSound(r, n) && Defined(r, n) {
      assert NodeState(m0, r, pending, {}, n) && Defined(m0, n);
    }
    SoundHolds(m0, r);
  }

  lemma PassEnds(m: Catalog, live: Inputs, m0: Catalog, r: Catalog, pending: Inputs, names: set<Name>)
    requires Sound(m) && m0 == Realized(m, names) && PassInv(m0, r, pending, {})
    requires forall x :: x in names <==> Needed(m, live, x)
    requires r.tables == BumpedTables(m.tables, live) && r.commitSeq == m.commitSeq + 1
    ensures Sound(r) && PassReport(m, live, r)
  {
    RealizedSound(m, names);
    PassEndSound(m0, r, pending);
    forall n | n in m.views ensures ViewReport(m, live, r, n) {
      ViewDone(m, live, m0, r, pending, names, n);
    }
  }

  lemma NodeDone(m0: Catalog, r: Catalog, pending: Inputs, n: Name)
    requires PassInv(m0, r, pending, {}) && n in m0.views
    ensures n in r.views && n in m0.views && Recorded(m0.views[n], r.views[n], pending, r.commitSeq)
    ensures r.tables.Keys == m0.tables.Keys
  {
    assert NodeState(m0, r, pending, {}, n);
  }

  lemma SourcesMoved(m: Catalog, names: set<Name>, m0: Catalog, r: Catalog, pending: Inputs, n: Name)
    requires m0 == Realized(m, names) && n in m.views
    requires forall s {:trigger Moved(m0, r, pending, s)} :: Moved(m0, r, pending, s)
    ensures SourceChanged(m, r, m.views[n]) <==> Changed(m0.views[n], pending) != map[]
  {
    forall s | s in m.views[n].sources ensures Moved(m0, r, pending, s) && Content(m0, s) == Content(m, s) {
      RealizedContent(m, names, s);
    }
    ChangedMeansSourceChanged(m, m0, r, pending, m.views[n]);
    assert Changed(m0.views[n], pending) == Changed(m.views[n], pending);
  }

  lemma ViewDone(m: Catalog, live: Inputs, m0: Catalog, r: Catalog, pending: Inputs, names: set<Name>, n: Name)
    requires m.tables.Keys !! m.views.Keys && m0 == Realized(m, names) && PassInv(m0, r, pending, {}) && n in m.views
    requires n in names <==> Needed(m, live, n)
    ensures ViewReport(m, live, r, n)
  {
    NodeDone(m0, r, pending, n);
    SourcesMoved(m, names, m0, r, pending, n);
    ReportView(m, live, m0, r, pending, n);
  }

  lemma TopoFacts(m: Catalog, live: Inputs, changed: seq<Name>, topo: seq<Name>)
    requires WellFormed(m) && live.Keys <= m.tables.Keys && Elements(changed) == live.Keys
    requires NoDuplicates(topo) && forall x :: x in topo <==> InCone(m.g.dependents, changed, x)
    requires forall i, d :: 0 <= i < |topo| && d in Out(m.g.dependencies, topo[i]) && InCone(m.g.dependents, changed, d)
               ==> d in topo[..i]
    ensures Topological(m, topo) && Elements(topo) !! live.Keys && Elements(topo) <= m.views.Keys
    ensures forall x :: x in Elements(topo) <==> Affected(m, live, x)
  {
    forall x ensures InCone(m.g.dependents, changed, x) <==> Affected(m, live, x)
             ensures Affected(m, live, x) ==> x in m.views
    {
      AffectedIsCone(m, live, changed, x);
    }
    forall i, j | 0 <= i <= j < |topo| ensures topo[j] !in Out(m.g.dependencies, topo[i]) {
      assert topo[j] in topo;
      assert topo[j] !in topo[..i];
    }
  }

  lemma NamesNeeded(m: Catalog, live: Inputs, topo: seq<Name>, names: set<Name>)
    requires forall x :: x in Elements(topo) <==> Affected(m, live, x)
    requires forall x :: x in names <==> InClosure(m.g, topo, x)
    ensures forall x :: x in names <==> Needed(m, live, x)
  {
    assert forall t :: t in topo <==> t in Elements(topo);
    forall x ensures InClosure(m.g, topo, x) <==> Needed(m, live, x) {
    }
  }

  lemma PlanHolds(m: Catalog, live: Inputs, topo: seq<Name>, levelOf: map<Name, nat>, levels: seq<seq<Name>>,
                  names: set<Name>, m0: Catalog)
    requires Sound(m) && Live(m, live) && m0 == Realized(m, names)
    requires LevelsTrue(m, live.Keys, Elements(topo), levelOf) && Grouped(Elements(topo), levelOf, levels)
    requires forall x :: x in Elements(topo) <==> Affected(m, live, x)
    requires forall x :: InClosure(m.g, topo, x) ==> x in names
    ensures Planned(m0, live, topo, levelOf, levels)
  {
    RealizedSound(m, names);
    AffectedKept(m, m0, live);
    NamesRealized(m, topo, names);
    PlannedHolds(m0, live, topo, levelOf, levels);
  }

  lemma NamesRealized(m: Catalog, topo: seq<Name>, names: set<Name>)
    requires forall x :: InClosure(m.g, topo, x) ==> x in names
    ensures AllRealized(Realized(m, names), topo)
  {
  }

  lemma PlannedHolds(m0: Catalog, live: Inputs, topo: seq<Name>, levelOf: map<Name, nat>, levels: seq<seq<Name>>)
    requires Sound(m0) && Live(m0, live)
    requires LevelsTrue(m0, live.Keys, Elements(topo), levelOf) && Grouped(Elements(topo), levelOf, levels)
    requires forall n :: n in Elements(topo) <==> Affected(m0, live, n)
    requires AllRealized(m0, topo)
    ensures Planned(m0, live, topo, levelOf, levels)
  {
  }

  lemma AffectedKept(m: Catalog, m0: Catalog, live: Inputs)
    requires m0.g == m.g
    ensures forall x :: Affected(m0, live, x) <==> Affected(m, live, x)
  {
  }

  // The plan of a pass: what to realize, and the levels to step.
  method Plan(m: Catalog, live: Inputs)
    returns (levels: seq<seq<Name>>, worklist: seq<Name>, ghost topo: seq<Name>, ghost levelOf: map<Name, nat>)
    requires Sound(m) && Live(m, live)
    ensures Planned(Realized(m, Elements(worklist)), live, topo, levelOf, levels)
    ensures forall x :: x in Elements(worklist) <==> Needed(m, live, x)
  {
    var changed := Enqueue([], live.Keys);
    var order := TopologicalOrder(m.g, changed);
    TopoFacts(m, live, changed, order);
    var level;
    level, levels := AssignLevels(m, live.Keys, order);
    worklist := RealizeWorklist(m, order);
    topo, levelOf := order, level;
    assert forall x :: x in Elements(worklist) <==> x in worklist;
    NamesNeeded(m, live, order, Elements(worklist));
    PlanHolds(m, live, order, level, levels, Elements(worklist), Realized(m, Elements(worklist)));
  }

  // propagate_changes_multi.
  method PropagateChanges(m: Catalog, deltas: Inputs) returns (r: Catalog)
    requires Sound(m)
    requires deltas.Keys <= m.tables.Keys && forall t :: t in deltas ==> Normal(deltas[t])
    ensures Sound(r)
    ensures var live := map t | t in deltas && deltas[t] != NO_ROWS :: deltas[t];
            if live == map[] then r == m else PassReport(m, live, r)
  {
    var live := map t | t in deltas && deltas[t] != NO_ROWS :: deltas[t];
    if live == map[] {
      return m;
    }
    r := Pass(m, live);
  }

  method Start(m: Catalog, live: Inputs, worklist: seq<Name>) returns (r: Catalog)
    requires m.tables.Keys !! m.views.Keys && live.Keys <= m.tables.Keys
    ensures r == Bumped(Realized(m, Elements(worklist)), live)
  {
    var arrs := ApplySources(m, live);
    r := m.(tables := BumpedTables(m.tables, live), arrs := arrs, commitSeq := m.commitSeq + 1);
    BumpedRealized(m, live, Elements(worklist));
    r := RealizeAll(r, worklist);
  }

  lemma TablesAfter(m: Catalog, live: Inputs, names: set<Name>, r: Catalog)
    requires r.tables == Bumped(Realized(m, names), live).tables && r.commitSeq == Bumped(Realized(m, names), live).commitSeq
    ensures r.tables == BumpedTables(m.tables, live) && r.commitSeq == m.commitSeq + 1
  {
  }

  method Pass(m: Catalog, live: Inputs) returns (r: Catalog)
    requires Sound(m) && Live(m, live)
    ensures Sound(r) && PassReport(m, live, r)
  {
    var levels, worklist, topo, levelOf := Plan(m, live);
    r := Start(m, live, worklist);
    ghost var names := Elements(worklist);
    var pending;
    r, pending := RunLevels(Realized(m, names), r, live, topo, levelOf, levels);
    TablesAfter(m, live, names, r);
    PassEnds(m, live, Realized(m, names), r, pending, names);
  }
}
