// Creating, restoring and reading views (include/dbsp_cdc.hpp), and the
// manager whose every reachable state is sound.
module Creation {
  import opened ZSets
  import opened Rows
  import opened DepGraph
  import opened DependencyGraphs
  import opened Catalogs
  import opened PassState
  import opened Realizing

  // ---- replay ----

  // One replay step of a new view: `chunk` more rows of source s. The circuit
  // steps even when the chunk is empty.
  function Replayed(v: View, s: Name, chunk: ZSet<Row>): View
    requires s in v.live.seen
  {
    var seen := v.live.seen[s := Plus(v.live.seen[s], chunk)];
    var out := Minus(Answer(v, seen), v.live.result);
    v.(live := Core(seen, Plus(v.live.result, out)), batch := out, steps := v.steps + 1)
  }

  // The view answers its query over what it has seen, once it has stepped.
  ghost predicate Answers(v: View) {
    Normal(v.live.result) && (v.steps > 0 ==> v.live.result == Answer(v, v.live.seen))
  }

  lemma ReplayAnswers(v: View, s: Name, chunk: ZSet<Row>)
    requires s in v.live.seen && Answers(v)
    ensures var r := Replayed(v, s, chunk);
            Answers(r) && r.steps > 0 && SameDefinition(v, r) && r.stash == v.stash
            && r.live.seen == v.live.seen[s := Plus(v.live.seen[s], chunk)]
  {
    var r := Replayed(v, s, chunk);
    PlusMinus(Answer(v, r.live.seen), v.live.result);
  }

  // The view and the chunk in hand together hold the rows scanned so far.
  ghost predicate Scanned(content: ZSet<Row>, rows: set<Row>, seen: ZSet<Row>, chunk: ZSet<Row>) {
    forall x {:trigger W(content, x)} {:trigger W(seen, x)} {:trigger W(chunk, x)} ::
      W(seen, x) + W(chunk, x) == if x in rows then W(content, x) else 0
  }

  lemma ScanStep(content: ZSet<Row>, rows: set<Row>, seen: ZSet<Row>, chunk: ZSet<Row>, x: Row)
    requires Scanned(content, rows, seen, chunk) && x in content && x !in rows
    ensures Scanned(content, rows + {x}, seen, Insert(chunk, x, content[x]))
  {
    assert W(content, x) == content[x];
  }

  ghost predicate Streaming(v0: View, v: View, s: Name, content: ZSet<Row>, rows: set<Row>, chunk: ZSet<Row>) {
    && Normal(chunk) && Answers(v) && SameDefinition(v0, v) && v.stash == v0.stash
    && s in v.live.seen && s in v0.live.seen && v.live.seen == v0.live.seen[s := v.live.seen[s]]
    && Scanned(content, rows, v.live.seen[s], chunk)
  }

  // A full chunk is applied and a new one begun.
  method Flush(ghost v0: View, v: View, s: Name, ghost content: ZSet<Row>, ghost rows: set<Row>, chunk: ZSet<Row>)
    returns (r: View)
    requires Streaming(v0, v, s, content, rows, chunk)
    ensures Streaming(v0, r, s, content, rows, map[]) && r.steps > 0
    ensures Normal(r.live.seen[s])
  {
    ReplayAnswers(v, s, chunk);
    r := Replayed(v, s, chunk);
  }

  // Stream a source's rows into the view in chunks of `limit` rows; the last
  // chunk is applied even when it is empty.
  method ReplaySource(v0: View, s: Name, content: ZSet<Row>, limit: nat) returns (v: View)
    requires s in v0.live.seen && v0.live.seen[s] == NO_ROWS && Normal(content) && Answers(v0)
    ensures Answers(v) && v.steps > 0 && SameDefinition(v0, v) && v.stash == v0.stash
    ensures v.live.seen == v0.live.seen[s := content]
  {
    v := v0;
    var chunk: ZSet<Row> := map[];
    var todo := content.Keys;
    while todo != {}
      invariant todo <= content.Keys && Streaming(v0, v, s, content, content.Keys - todo, chunk)
      decreases todo
    {
      var row :| row in todo;
      ScanStep(content, content.Keys - todo, v.live.seen[s], chunk, row);
      assert content.Keys - (todo - {row}) == (content.Keys - todo) + {row};
      todo := todo - {row};
      chunk := Insert(chunk, row, content[row]);
      if |chunk| >= limit {
        v := Flush(v0, v, s, content, content.Keys - todo, chunk);
        chunk := map[];
      }
    }
    v := Flush(v0, v, s, content, content.Keys, chunk);
    Extensional(v.live.seen[s], content);
  }

  // ---- arrangements ----

  // register_arrangements: fill the missing ones from the current contents.
  function Registered(m: Catalog, shared: set<Name>): map<Name, Arrangement> {
    map n | n in m.arrs.Keys + shared :: if n in m.arrs then m.arrs[n] else Arrangement(Content(m, n), false)
  }

  // ---- create_view ----

  datatype Definition = Definition(sources: seq<Name>, shared: set<Name>, skip: set<Name>, query: Inputs -> ZSet<Row>)

  // A source read through an arrangement may be left out of the replay, but
  // never all of them: something must step the circuit.
  ghost predicate Wellposed(d: Definition) {
    && d.skip <= d.shared <= Elements(d.sources) && d.skip != Elements(d.sources)
  }

  function SkippedContent(m: Catalog, d: Definition, s: Name): ZSet<Row> {
    if s in d.skip then Content(m, s) else NO_ROWS
  }

  function NewView(m: Catalog, d: Definition, createdAt: nat): View {
    var sources := Elements(d.sources);
    View(sources, d.shared, d.query, createdAt,
         Core(map s | s in sources :: SkippedContent(m, d, s), map[]), None, map[], 0, 0)
  }

  method ReplayAll(m: Catalog, d: Definition, v0: View, limit: nat) returns (v: View)
    requires Wellposed(d) && v0.steps == 0 && v0.live.result == map[] && v0.sources == Elements(d.sources)
    requires v0.live.seen == map s | s in v0.sources :: SkippedContent(m, d, s)
    requires forall s :: Normal(Content(m, s))
    ensures SameDefinition(v0, v) && v.stash == v0.stash
    ensures v.live.seen == map s | s in v.sources :: Content(m, s)
    ensures v.live.result == Answer(v, v.live.seen)
  {
    v := v0;
    var todo := v0.sources - d.skip;
    while todo != {}
      invariant todo <= v0.sources - d.skip && Answers(v) && SameDefinition(v0, v) && v.stash == v0.stash
      invariant v.live.seen.Keys == v0.sources
      invariant forall s :: s in v0.sources ==> v.live.seen[s] == if s in todo then NO_ROWS else Content(m, s)
      invariant v.steps > 0 || todo == v0.sources - d.skip
      decreases todo
    {
      var s :| s in todo;
      v := ReplaySource(v, s, Content(m, s), limit);
      todo := todo - {s};
    }
    assert v0.sources <= d.skip ==> v0.sources == d.skip;
  }

  // Nothing can depend on a name that is neither a view nor a table.
  lemma FreshReachesNothing(m: Catalog, name: Name, s: Name)
    requires WellFormed(m) && name !in m.views && name !in m.tables
    ensures !Reach(m.g.dependents, name, s)
  {
    forall p: seq<Name> ensures !(IsPath(m.g.dependents, p) && p[0] == name) {
      if IsPath(m.g.dependents, p) && p[0] == name {
        assert p[0 + 1] in Out(m.g.dependents, name);
        NobodyReads(m, name, p[1]);
      }
    }
  }

  lemma NobodyReads(m: Catalog, name: Name, x: Name)
    requires WellFormed(m) && name !in m.views && name !in m.tables
    ensures x !in Out(m.g.dependents, name)
  {
    assert name in Out(m.g.dependencies, x) <==> x in Out(m.g.dependents, name);
    if x in m.views {
      assert Defined(m, x);
    }
  }

  // The catalog with the new view in it.
  function WithView(m: Catalog, name: Name, v: View, arrs: map<Name, Arrangement>, g: Graph): Catalog {
    m.(views := m.views[name := v], arrs := arrs, g := g, lastCreated := v.createdAt)
  }

  ghost predicate FreshView(m: Catalog, name: Name, v: View) {
    && name !in m.views && name !in m.tables && v.stash.None? && name !in v.sources
    && v.createdAt > m.lastCreated && v.shared <= v.sources
    && v.live.seen.Keys == v.sources && v.live.result == Answer(v, v.live.seen)
    && forall s :: s in v.sources ==> (s in m.tables || s in m.views) && v.live.seen[s] == Content(m, s)
  }

  lemma OldView(m: Catalog, name: Name, v: View, arrs: map<Name, Arrangement>, g: Graph, n: Name)
    requires WellFormed(m) && FreshView(m, name, v) && m.arrs.Keys <= arrs.Keys
    requires n in m.views && Defined(m, n) && ViewSound(m, n)
    ensures var r := WithView(m, name, v, arrs, g); Defined(r, n) && ViewSound(r, n)
  {
    forall s | s in m.views[n].sources ensures s != name && Content(WithView(m, name, v, arrs, g), s) == Content(m, s) {
    }
  }

  lemma AddedView(m: Catalog, name: Name, v: View, arrs: map<Name, Arrangement>, g: Graph)
    requires WellFormed(m) && FreshView(m, name, v) && v.shared <= arrs.Keys
    ensures var r := WithView(m, name, v, arrs, g); Defined(r, name) && ViewSound(r, name)
  {
    forall s | s in v.sources ensures s in m.views ==> m.views[s].createdAt < v.createdAt {
      assert s in m.views ==> Defined(m, s);
    }
  }

  lemma AddedArrangements(m: Catalog, name: Name, v: View, g: Graph, n: Name)
    requires FreshView(m, name, v) && n in Registered(m, v.shared) && (n in m.arrs ==> ArrangementSound(m, n))
    ensures ArrangementSound(WithView(m, name, v, Registered(m, v.shared), g), n)
  {
  }

  ghost predicate GraphAdds(g: Graph, next: Graph, name: Name, sources: set<Name>) {
    && Inverse(next) && Acyclic(next.dependents)
    && forall n :: Out(next.dependencies, n) == if n == name then Out(g.dependencies, n) + sources else Out(g.dependencies, n)
  }

  method AddToGraph(m: Catalog, name: Name, sources: seq<Name>) returns (g: Graph)
    requires WellFormed(m) && name !in m.views && name !in m.tables && name !in sources
    ensures GraphAdds(m.g, g, name, Elements(sources))
  {
    forall s | s in sources ensures !Reach(m.g.dependents, name, s) {
      FreshReachesNothing(m, name, s);
    }
    g := AddSources(m.g, name, sources);
    forall n ensures Out(g.dependencies, n) == if n == name then Out(m.g.dependencies, n) + Elements(sources) else Out(m.g.dependencies, n) {
      assert forall b :: b in Out(g.dependencies, n) <==> DependsOn(g, n, b);
      assert forall b :: b in Out(m.g.dependencies, n) <==> DependsOn(m.g, n, b);
    }
  }

  lemma AddedSound(m: Catalog, name: Name, v: View, g: Graph)
    requires Sound(m) && FreshView(m, name, v) && GraphAdds(m.g, g, name, v.sources)
    ensures Sound(WithView(m, name, v, Registered(m, v.shared), g))
  {
    var arrs := Registered(m, v.shared);
    var r := WithView(m, name, v, arrs, g);
    AddedView(m, name, v, arrs, g);
    forall n | n in r.views ensures Defined(r, n) && ViewSound(r, n) {
      if n != name {
        assert Defined(m, n) && ViewSound(m, n);
        OldView(m, name, v, arrs, g, n);
      }
    }
    forall n | n in r.arrs ensures ArrangementSound(r, n) {
      assert n in m.arrs ==> ArrangementSound(m, n);
      AddedArrangements(m, name, v, g, n);
    }
    AddedWellFormed(m, name, v, arrs, g);
    SoundFromParts(r);
  }

  lemma AddedWellFormed(m: Catalog, name: Name, v: View, arrs: map<Name, Arrangement>, g: Graph)
    requires WellFormed(m) && FreshView(m, name, v) && GraphAdds(m.g, g, name, v.sources)
    requires forall n {:trigger Defined(WithView(m, name, v, arrs, g), n)} ::
               n in m.views || n == name ==> Defined(WithView(m, name, v, arrs, g), n)
    ensures WellFormed(WithView(m, name, v, arrs, g))
  {
  }

  lemma SoundFromParts(r: Catalog)
    requires WellFormed(r)
    requires forall n {:trigger ViewSound(r, n)} :: n in r.views ==> ViewSound(r, n)
    requires forall n {:trigger ArrangementSound(r, n)} :: n in r.arrs ==> ArrangementSound(r, n)
    ensures Sound(r)
  {
  }

  predicate Creatable(m: Catalog, name: Name, sources: seq<Name>) {
    name !in m.views && forall s :: s in sources ==> s != name && (s in m.tables || s in m.views)
  }

  // The source list is checked before anything is changed.
  method SourcesResolve(m: Catalog, name: Name, sources: seq<Name>) returns (ok: bool)
    requires WellFormed(m) && name !in m.tables
    ensures ok <==> Creatable(m, name, sources)
  {
    if name in m.views {
      return false;
    }
    for i := 0 to |sources|
      invariant forall j :: 0 <= j < i ==> sources[j] != name && (sources[j] in m.tables || sources[j] in m.views)
    {
      var cycle := WouldCreateCycle(m.g.dependents, name, sources[i]);
      FreshReachesNothing(m, name, sources[i]);
      assert sources[i] in sources;
      if cycle || (sources[i] !in m.views && sources[i] !in m.tables) {
        return false;
      }
    }
    return true;
  }

  lemma ContentsNormal(m: Catalog)
    requires Sound(m)
    ensures forall s :: Normal(Content(m, s))
  {
    forall s ensures Normal(Content(m, s)) {
      if s in m.views {
        assert ViewSound(m, s);
      }
    }
  }

  // The new view after its replay.
  method Replay(m: Catalog, name: Name, d: Definition, createdAt: nat, limit: nat) returns (v: View)
    requires Wellposed(d) && name !in m.tables && Creatable(m, name, d.sources) && createdAt > m.lastCreated
    requires forall s :: Normal(Content(m, s))
    ensures FreshView(m, name, v)
    ensures v.sources == Elements(d.sources) && v.query == d.query && v.shared == d.shared
  {
    v := ReplayAll(m, d, NewView(m, d, createdAt), limit);
    assert forall s :: s in v.sources ==> s in d.sources;
  }

  // Register arrangements, replay the sources.
  method Assemble(m: Catalog, name: Name, d: Definition, now: nat, limit: nat) returns (v: View, g: Graph)
    requires Sound(m) && name !in m.tables && Wellposed(d) && Creatable(m, name, d.sources)
    ensures FreshView(m, name, v) && GraphAdds(m.g, g, name, v.sources)
    ensures v.sources == Elements(d.sources) && v.query == d.query && v.shared == d.shared
  {
    ContentsNormal(m);
    g := AddToGraph(m, name, d.sources);
    v := Replay(m, name, d, if now > m.lastCreated then now else m.lastCreated + 1, limit);
  }

  lemma CreatedSound(m: Catalog, name: Name, v: View, g: Graph, names: set<Name>, m1: Catalog, r: Catalog)
    requires Sound(m) && m1 == Realized(m, names)
    requires FreshView(m1, name, v) && GraphAdds(m1.g, g, name, v.sources)
    requires r == WithView(m1, name, v, Registered(m1, v.shared), g)
    ensures Sound(r)
  {
    RealizedSound(m, names);
    AddedSound(m1, name, v, g);
  }

  lemma CreatedContents(m: Catalog, name: Name, v: View, g: Graph, names: set<Name>, m1: Catalog, r: Catalog)
    requires m1 == Realized(m, names)
    requires r == WithView(m1, name, v, Registered(m1, v.shared), g)
    ensures r.tables == m.tables && r.views.Keys == m.views.Keys + {name} && r.views[name] == v
    ensures forall n :: n != name ==> Content(r, n) == Content(m, n)
  {
    forall n | n != name ensures Content(r, n) == Content(m, n) {
      RealizedContent(m, names, n);
    }
  }

  // create_view: realize pending sources, register arrangements, replay,
  // publish.
  method Create(m: Catalog, name: Name, d: Definition, now: nat, limit: nat) returns (r: Catalog, ok: bool)
    requires Sound(m) && name !in m.tables && Wellposed(d)
    ensures Sound(r)
    ensures ok <==> Creatable(m, name, d.sources)
    ensures !ok ==> r == m
    ensures ok ==>
              && r.tables == m.tables && r.views.Keys == m.views.Keys + {name}
              && r.views[name].sources == Elements(d.sources) && r.views[name].query == d.query
              && forall n :: n != name ==> Content(r, n) == Content(m, n)
  {
    r := m;
    ok := SourcesResolve(m, name, d.sources);
    if ok {
      RealizedSound(m, Elements(d.sources));
      r := RealizeAll(m, d.sources);
      ghost var m1 := r;
      var v, g := Assemble(r, name, d, now, limit);
      r := WithView(r, name, v, Registered(r, v.shared), g);
      CreatedSound(m, name, v, g, Elements(d.sources), m1, r);
      CreatedContents(m, name, v, g, Elements(d.sources), m1, r);
    }
  }

  // ---- lazy restore ----

  // Load an accepted checkpoint: every view waits with its core stashed, and
  // arrangements over views wait unless their sidecar file was adopted.
  function Reloaded(m: Catalog, adopted: set<Name>): Catalog {
    m.(views := map n | n in m.views ::
         m.views[n].(stash := Some(Logical(m.views[n])), live := Core(map[], NO_ROWS), batch := NO_ROWS, steps := 0, generation := 0),
       arrs := map n | n in m.arrs ::
         if n in m.views then (if n in adopted then Arrangement(Content(m, n), false) else Arrangement(NO_ROWS, true))
         else m.arrs[n])
  }

  lemma ReloadedSound(m: Catalog, adopted: set<Name>)
    requires Sound(m)
    ensures Sound(Reloaded(m, adopted))
  {
    ReloadedViews(m, adopted);
    ReloadedArrangements(m, adopted);
    SoundHolds(m, Reloaded(m, adopted));
  }

  lemma ReloadedViews(m: Catalog, adopted: set<Name>)
    requires Sound(m)
    ensures var r := Reloaded(m, adopted); forall n :: n in r.views ==> ViewSound(r, n) && Defined(r, n)
  {
    var r := Reloaded(m, adopted);
    forall n | n in r.views ensures ViewSound(r, n) && Defined(r, n) {
      assert ViewSound(m, n) && Defined(m, n);
      ReloadedView(m, adopted, n);
    }
  }

  lemma ReloadedArrangements(m: Catalog, adopted: set<Name>)
    requires Sound(m)
    ensures var r := Reloaded(m, adopted); forall n :: n in r.arrs ==> ArrangementSound(r, n)
  {
    var r := Reloaded(m, adopted);
    forall n | n in r.arrs ensures ArrangementSound(r, n) {
      assert ArrangementSound(m, n);
    }
  }

  lemma ReloadedView(m: Catalog, adopted: set<Name>, n: Name)
    requires n in m.views && ViewSound(m, n) && Defined(m, n)
    ensures ViewSound(Reloaded(m, adopted), n) && Defined(Reloaded(m, adopted), n)
  {
    ReloadedContent(m, adopted);
  }

  lemma ReloadedContent(m: Catalog, adopted: set<Name>)
    ensures forall n :: Content(Reloaded(m, adopted), n) == Content(m, n)
  {
  }

  // A newly tracked table.
  lemma TrackedSound(m: Catalog, t: Name, content: ZSet<Row>)
    requires Sound(m) && t !in m.tables && t !in m.views && Normal(content)
    ensures Sound(m.(tables := m.tables[t := content]))
  {
    var r := m.(tables := m.tables[t := content]);
    forall n | n in r.views ensures ViewSound(r, n) && Defined(r, n) {
      assert ViewSound(m, n) && Defined(m, n);
    }
    forall n | n in r.arrs ensures ArrangementSound(r, n) {
      assert ArrangementSound(m, n);
    }
    TrackedWellFormed(m, t, content);
    SoundFromParts(r);
  }

  lemma TrackedWellFormed(m: Catalog, t: Name, content: ZSet<Row>)
    requires WellFormed(m) && t !in m.tables && t !in m.views && Normal(content)
    ensures WellFormed(m.(tables := m.tables[t := content]))
  {
    forall n | n in m.views ensures Defined(m.(tables := m.tables[t := content]), n) {
      assert Defined(m, n);
    }
  }
}

module ViewManagers {
  import opened ZSets
  import opened Rows
  import opened DepGraph
  import opened Catalogs
  import opened PassState
  import opened Realizing
  import opened Propagation
  import opened Creation
  import PassStart

  class ViewManager {
    var m: Catalog

    // After every operation each view, restored or not, answers its query
    // over the current tables.
    ghost predicate Valid()
      reads this
    {
      Sound(m)
    }

    constructor ()
      ensures Valid() && m.tables == map[] && m.views == map[]
    {
      EmptyAcyclic();
      m := Catalog(map[], map[], map[], Graph(map[], map[]), 0, 0);
    }

    method TrackTable(t: Name, content: ZSet<Row>) returns (ok: bool)
      requires Valid() && Normal(content)
      modifies this
      ensures Valid()
      ensures ok <==> t !in old(m).tables && t !in old(m).views
      ensures m == if ok then old(m).(tables := old(m).tables[t := content]) else old(m)
    {
      ok := t !in m.tables && t !in m.views;
      if ok {
        TrackedSound(m, t, content);
        m := m.(tables := m.tables[t := content]);
      }
    }

    method CreateView(name: Name, d: Definition, now: nat, limit: nat) returns (ok: bool)
      requires Valid() && name !in m.tables && Wellposed(d)
      modifies this
      ensures Valid()
      ensures ok <==> Creatable(old(m), name, d.sources)
      ensures !ok ==> m == old(m)
      ensures ok ==> m.tables == old(m).tables && name in m.views && m.views[name].query == d.query
                     && m.views[name].sources == Elements(d.sources)
                     && forall n :: n != name ==> Content(m, n) == Content(old(m), n)
      ensures forall n :: n in m.views ==> EqualsQuery(m, n, Content(m, n))
    {
      m, ok := Create(m, name, d, now, limit);
      AllEqualQueries(m);
    }

    // All of a commit's table deltas in one pass.
    method Commit(deltas: Inputs)
      requires Valid()
      requires deltas.Keys <= m.tables.Keys && forall t :: t in deltas ==> Normal(deltas[t])
      modifies this
      ensures Valid()
      ensures var live := map t | t in deltas && deltas[t] != NO_ROWS :: deltas[t];
              if live == map[] then m == old(m) else PassReport(old(m), live, m)
      ensures forall n :: n in m.views ==> EqualsQuery(m, n, Content(m, n))
      ensures m.tables.Keys == old(m).tables.Keys
      ensures forall t, x :: t in m.tables ==>
                W(m.tables[t], x) == W(old(m).tables[t], x) + if t in deltas then W(deltas[t], x) else 0
    {
      m := PropagateChanges(m, deltas);
      AllEqualQueries(m);
    }

    // Reading realizes the view first; what is returned is the query
    // evaluated from scratch over the tables.
    method Read(name: Name) returns (result: ZSet<Row>)
      requires Valid() && name in m.views
      modifies this
      ensures Valid() && m == Realized(old(m), {name})
      ensures result == FromScratch(old(m), name) && EqualsQuery(old(m), name, result)
    {
      RealizedSound(m, {name});
      ContentIsFromScratch(m, name);
      m := RealizeOne(m, name);
      result := m.views[name].live.result;
    }

    // Close and reopen on an accepted checkpoint.
    method Reload(adopted: set<Name>)
      requires Valid()
      modifies this
      ensures Valid() && m == Reloaded(old(m), adopted)
      ensures forall n :: Content(m, n) == Content(old(m), n)
    {
      ReloadedSound(m, adopted);
      ReloadedContent(m, adopted);
      m := Reloaded(m, adopted);
    }
  }
}
