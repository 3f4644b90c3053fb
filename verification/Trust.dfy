// When the change-capture manager may trust a tracked table's baseline:
// the states of TrackedTable against DuckDB's active transactions
// (include/dbsp_duckdb_types.hpp, include/dbsp_cdc.hpp, include/dbsp_context_state.hpp).
module Trust {
  import opened ZSets
  import opened Rows

  type Table = nat
  type TxnId = nat

  datatype Baseline = Unseeded | Deferred | Provisional | Seeded

  // watermark 0: nothing to wait on. preTriggerRows: the deferring
  // transaction already held changes when the table was tracked.
  datatype TrackedTable = TrackedTable(baseline: Baseline, content: ZSet<Row>, watermark: nat, preTriggerRows: bool)
  {
    function MarkSeedDeferred(mark: nat, tainted: bool): TrackedTable {
      var t := if tainted then this.(preTriggerRows := true) else this;
      if baseline.Unseeded? || baseline.Deferred?
      then t.(baseline := Deferred, watermark := if mark > watermark then mark else watermark)
      else t
    }

    function MarkSeeded(): TrackedTable {
      if baseline.Unseeded? || baseline.Deferred?
      then this.(baseline := Seeded, watermark := 0, preTriggerRows := false)
      else this
    }

    function MarkProvisional(mark: nat): TrackedTable {
      this.(baseline := Provisional, watermark := mark)
    }

    function RetireProvisional(): TrackedTable {
      this.(baseline := Seeded, watermark := 0)
    }
  }

  const FreshTable := TrackedTable(Unseeded, map[], 0, false)

  // What the hooks of one connection know about its transaction's writes.
  datatype Capture = Capture(
    sawStatements: bool, unknownWrites: bool, touched: set<Table>,
    triggerDeltas: map<Table, ZSet<Row>>, triggerFed: bool, triggersInstalled: bool)

  const NoCapture := Capture(false, false, {}, map[], false, false)

  // writes: all uncommitted changes; early: the tables among them that were
  // not tracked at that time, so that nothing will ever report those writes;
  // silent: the tracked ones written without their triggers firing; unseen:
  // those of them written by statements nobody classified, because auto-sync
  // was off.
  datatype Txn = Txn(start: nat, writes: map<Table, ZSet<Row>>, early: set<Table>, silent: set<Table>, unseen: set<Table>,
                     capture: Capture, trackedHere: set<Table>)

  function WritesTo(txn: Txn, t: Table): ZSet<Row> {
    if t in txn.writes then txn.writes[t] else map[]
  }

  function FedTo(c: Capture, t: Table): ZSet<Row> {
    if t in c.triggerDeltas then c.triggerDeltas[t] else map[]
  }

  function Stored(committed: map<Table, ZSet<Row>>, t: Table): ZSet<Row> {
    if t in committed then committed[t] else map[]
  }

  type Live = map<TxnId, Txn>
  type Tables = map<Table, TrackedTable>

  // Every active transaction started at or after `start`.
  predicate NoActiveStartBefore(live: Live, start: nat) {
    forall x :: x in live ==> live[x].start >= start
  }

  // Who asks: a statement inside an explicit transaction, an autocommit
  // statement with its own start, or the commit hook, which has none.
  datatype Caller = InTransaction | Statement(start: nat) | CommitHook

  // untainted_establish_allowed
  predicate EstablishAllowed(live: Live, who: Caller)
    requires !who.InTransaction?
  {
    if who.Statement? then NoActiveStartBefore(live, who.start) else live == map[]
  }

  predicate WatermarkCleared(live: Live, t: TrackedTable) {
    t.watermark == 0 || NoActiveStartBefore(live, t.watermark)
  }

  // retire_scanned_baseline
  function Retire(live: Live, who: Caller, t: TrackedTable): TrackedTable {
    if t.baseline.Seeded? || who.InTransaction? then t
    else if t.baseline.Provisional? then
      if WatermarkCleared(live, t) then t.RetireProvisional() else t
    else if t.preTriggerRows && !WatermarkCleared(live, t) then t
    else if !EstablishAllowed(live, who) then t
    else t.MarkSeeded()
  }

  // One reconcile scan: committed content is installed, then the state may retire.
  function Rescan(live: Live, who: Caller, stored: ZSet<Row>, t: TrackedTable): TrackedTable {
    Retire(live, who, t.(content := stored))
  }

  // ---- the invariant ----

  // What commits wrote to each table since its last scan that its baseline
  // was never told.
  type Dropped = map<Table, ZSet<Row>>

  function DroppedOf(d: Dropped, t: Table): ZSet<Row> {
    if t in d then d[t] else map[]
  }

  // No live transaction holds a write to a trusted table made before it was
  // tracked; a provisional one waits for all such transactions.
  ghost predicate Awaited(live: Live, name: Table, t: TrackedTable) {
    && (t.baseline.Seeded? ==> forall x :: x in live ==> name !in live[x].early)
    && (t.baseline.Provisional? ==>
          t.watermark > 0 && forall x :: x in live && name in live[x].early ==> live[x].start < t.watermark)
  }

  // A trusted baseline and what it was not told are the committed content.
  ghost predicate Trusted(live: Live, name: Table, stored: ZSet<Row>, dropped: ZSet<Row>, t: TrackedTable) {
    && Awaited(live, name, t)
    && (t.baseline.Seeded? ==> Normal(dropped) && Plus(t.content, dropped) == stored)
  }

  // So it is exact exactly when nothing was dropped, or what was cancels out.
  lemma ExactIffNothingDropped(live: Live, name: Table, stored: ZSet<Row>, dropped: ZSet<Row>, t: TrackedTable)
    requires Trusted(live, name, stored, dropped, t) && t.baseline.Seeded? && Normal(t.content)
    ensures t.content == stored <==> dropped == map[]
  {
    CancelPlus(t.content, dropped, map[]);
    Extensional(Plus(t.content, map[]), t.content);
  }

  lemma ExactIsTrusted(live: Live, name: Table, stored: ZSet<Row>, t: TrackedTable)
    requires Awaited(live, name, t) && t.content == stored && Normal(stored)
    ensures Trusted(live, name, stored, map[], t)
  {
    Extensional(Plus(stored, map[]), stored);
  }

  // What the hooks hold about the later writes of an open transaction: exact
  // images where triggers fired, the table's name in any case.
  ghost predicate CaptureTrue(txn: Txn) {
    var c := txn.capture;
    && (forall t {:trigger FedTo(c, t)} {:trigger WritesTo(txn, t)} ::
          t !in txn.early && t !in txn.silent && !c.unknownWrites ==> FedTo(c, t) == WritesTo(txn, t))
    && (forall t {:trigger WritesTo(txn, t)} ::
          t !in txn.early && t !in txn.unseen && WritesTo(txn, t) != map[] && !c.unknownWrites && !c.triggerFed
          ==> c.sawStatements && t in c.touched)
    && (forall t {:trigger FedTo(c, t)} :: FedTo(c, t) != map[] ==> c.triggerFed)
    && (c.unknownWrites && !c.triggerFed ==> c.sawStatements)
  }

  ghost predicate NormalTxn(txn: Txn) {
    && (forall t :: t in txn.writes ==> Normal(txn.writes[t]))
    && (forall t :: t in txn.capture.triggerDeltas ==> Normal(txn.capture.triggerDeltas[t]))
  }

  datatype State = State(committed: map<Table, ZSet<Row>>, live: Live, clock: nat, tables: Tables)

  ghost predicate LiveTrue(live: Live, clock: nat) {
    forall x :: x in live ==> x == live[x].start < clock && NormalTxn(live[x]) && CaptureTrue(live[x])
  }

  ghost predicate Inv(s: State, d: Dropped) {
    && s.clock > 0
    && (forall t :: t in s.committed ==> Normal(s.committed[t]))
    && LiveTrue(s.live, s.clock)
    && (forall t :: t in s.tables ==>
          Normal(s.tables[t].content) && Trusted(s.live, t, Stored(s.committed, t), DroppedOf(d, t), s.tables[t]))
  }

  // A statement that just began is younger than every other transaction.
  lemma NobodyOlder(live: Live, start: nat, clock: nat)
    requires start >= clock
    requires forall x :: x in live ==> live[x].start < clock
    ensures NoActiveStartBefore(live, start) <==> live == map[]
  {
    if live.Keys != {} {
      var x :| x in live.Keys;
      assert live[x].start < start;
    }
  }

  // ---- when trust is established ----

  // Every transaction that was active when the mark was set has ended.
  ghost predicate AllEnded(live: Live, mark: nat) {
    mark == 0 || forall x :: x in live ==> mark <= live[x].start
  }

  // What a scan outside any transaction makes of a state: a provisional table
  // is trusted once everything it waits for has ended, an unestablished one
  // only while nothing is open; otherwise the state stays.
  ghost predicate ScanSettles(live: Live, before: TrackedTable, after: TrackedTable) {
    && (before.baseline == Seeded ==> after.baseline == Seeded)
    && (before.baseline == Provisional ==> (after.baseline == Seeded <==> AllEnded(live, before.watermark)))
    && (before.baseline == Unseeded || before.baseline == Deferred ==> (after.baseline == Seeded <==> live == map[]))
    && StateKept(before, after)
  }

  ghost predicate StateKept(before: TrackedTable, after: TrackedTable) {
    (after.baseline == Seeded && (before.baseline == Seeded || after.watermark == 0)) ||
    (after.baseline == before.baseline && after.watermark == before.watermark && after.preTriggerRows == before.preTriggerRows)
  }

  lemma ScanEstablishes(live: Live, clock: nat, who: Caller, stored: ZSet<Row>, t: TrackedTable)
    requires who == CommitHook || who == Statement(clock)
    requires forall x :: x in live ==> live[x].start < clock
    ensures ScanSettles(live, t, Rescan(live, who, stored, t)) && Rescan(live, who, stored, t).content == stored
  {
    NobodyOlder(live, clock, clock);
  }

  // A scan from inside a transaction refreshes and establishes nothing.
  lemma InsideEstablishesNothing(live: Live, stored: ZSet<Row>, t: TrackedTable)
    ensures Rescan(live, InTransaction, stored, t) == t.(content := stored)
  {
  }

  lemma RetireKeepsTrust(live: Live, who: Caller, name: Table, t: TrackedTable, clock: nat)
    requires Awaited(live, name, t)
    requires forall x :: x in live ==> live[x].start < clock
    requires who.Statement? ==> who.start >= clock
    ensures Awaited(live, name, Retire(live, who, t))
  {
    if t.baseline.Provisional? && WatermarkCleared(live, t) {
      assert forall x :: x in live ==> live[x].start >= t.watermark;
    }
    if !who.InTransaction? && EstablishAllowed(live, who) {
      NobodyOlder(live, if who.Statement? then who.start else clock, clock);
    }
  }

  // A scan installs the committed content, so nothing is missing any more.
  lemma RescanKeepsTrust(live: Live, who: Caller, name: Table, stored: ZSet<Row>, t: TrackedTable, clock: nat)
    requires Awaited(live, name, t) && Normal(stored)
    requires forall x :: x in live ==> live[x].start < clock
    requires who.Statement? ==> who.start >= clock
    ensures Trusted(live, name, stored, map[], Rescan(live, who, stored, t))
    ensures Rescan(live, who, stored, t).content == stored
  {
    RetireKeepsTrust(live, who, name, t.(content := stored), clock);
    ExactIsTrusted(live, name, stored, Rescan(live, who, stored, t));
  }

  // sync_tables / sync_all: scan the named tables one by one.
  method SyncTables(s: State, who: Caller, names: set<Table>) returns (tables: Tables)
    requires names <= s.tables.Keys
    ensures tables.Keys == s.tables.Keys
    ensures forall t :: t in tables ==>
              tables[t] == (if t in names then Rescan(s.live, who, Stored(s.committed, t), s.tables[t]) else s.tables[t])
  {
    tables := s.tables;
    var todo := names;
    while todo != {}
      invariant todo <= names && tables.Keys == s.tables.Keys
      invariant forall t :: t in tables ==>
                  tables[t] == (if t in names && t !in todo
                               then Rescan(s.live, who, Stored(s.committed, t), s.tables[t]) else s.tables[t])
      decreases todo
    {
      var t :| t in todo;
      todo := todo - {t};
      tables := tables[t := Rescan(s.live, who, Stored(s.committed, t), tables[t])];
    }
  }

  // apply_captured_deltas: only a trusted baseline takes an exact delta; the
  // rest is handed back for a scan.
  method ApplyCaptured(tables0: Tables, deltas: map<Table, ZSet<Row>>) returns (tables: Tables, failed: set<Table>)
    ensures tables.Keys == tables0.Keys
    ensures failed == set t | t in deltas && deltas[t] != map[] && !(t in tables0 && tables0[t].baseline.Seeded?)
    ensures forall t :: t in tables ==>
              tables[t] == (if t in deltas && deltas[t] != map[] && tables0[t].baseline.Seeded?
              then tables0[t].(content := Plus(tables0[t].content, deltas[t])) else tables0[t])
  {
    tables, failed := tables0, {};
    var todo := deltas.Keys;
    while todo != {}
      invariant todo <= deltas.Keys && tables.Keys == tables0.Keys
      invariant failed == set t | t in deltas && t !in todo && deltas[t] != map[] && !(t in tables0 && tables0[t].baseline.Seeded?)
      invariant forall t :: t in tables ==>
                  tables[t] == (if t in deltas && t !in todo && deltas[t] != map[] && tables0[t].baseline.Seeded?
                  then tables0[t].(content := Plus(tables0[t].content, deltas[t])) else tables0[t])
      decreases todo
    {
      var t :| t in todo;
      todo := todo - {t};
      if deltas[t] == map[] {
        continue;
      }
      if t !in tables || !tables[t].baseline.Seeded? {
        failed := failed + {t};
        continue;
      }
      tables := tables[t := tables[t].(content := Plus(tables[t].content, deltas[t]))];
    }
  }

  // The tables the commit hook's sweep owes a scan.
  function Owed(live: Live, tables: Tables): (r: set<Table>)
    ensures r <= tables.Keys
  {
    set t | t in tables && (tables[t].baseline.Deferred? || tables[t].baseline.Provisional?)
            && WatermarkCleared(live, tables[t])
  }

  // Does the capture of a committing transaction account for what it wrote to
  // a table? With auto-sync off nothing is looked at; in a trigger-fed
  // transaction only the reported images are: the touched set is not consulted.
  predicate Accounted(c: Capture, autoSync: bool, triggersActive: bool, t: Table) {
    if !autoSync then false
    else if c.triggerFed then c.triggersInstalled || c.unknownWrites || t in c.triggerDeltas
    else if c.sawStatements && !c.unknownWrites then t in c.touched
    else !(!c.sawStatements && triggersActive)
  }

  // The tables the commit hook scans before its sweep.
  predicate ScannedAtCommit(tables: Tables, c: Capture, autoSync: bool, triggersActive: bool, t: Table)
    requires t in tables
  {
    if !autoSync then false
    else if c.triggerFed then
      c.triggersInstalled || c.unknownWrites || (FedTo(c, t) != map[] && !tables[t].baseline.Seeded?)
    else if c.sawStatements && !c.unknownWrites then t in c.touched
    else !(!c.sawStatements && triggersActive)
  }

  // Whether the reported images are added to the baseline.
  predicate Applies(c: Capture, autoSync: bool) {
    autoSync && c.triggerFed && !c.triggersInstalled
  }

  // What the hook does to one table, without the loops: with what was
  // captured, and then in the sweep.
  function CaptureResult(s: State, c: Capture, autoSync: bool, triggersActive: bool, t: Table): TrackedTable
    requires t in s.tables
  {
    var before := s.tables[t];
    var fed := if Applies(c, autoSync) && FedTo(c, t) != map[] && before.baseline.Seeded?
               then before.(content := Plus(before.content, FedTo(c, t))) else before;
    if ScannedAtCommit(s.tables, c, autoSync, triggersActive, t) then Rescan(s.live, CommitHook, Stored(s.committed, t), fed) else fed
  }

  function HookResult(s: State, c: Capture, autoSync: bool, triggersActive: bool, t: Table): TrackedTable
    requires t in s.tables
  {
    var mid := CaptureResult(s, c, autoSync, triggersActive, t);
    if autoSync && (mid.baseline.Deferred? || mid.baseline.Provisional?) && WatermarkCleared(s.live, mid)
    then Rescan(s.live, CommitHook, Stored(s.committed, t), mid) else mid
  }

  // The branches on what was captured, with auto-sync on.
  method TakeCapture(s: State, c: Capture, triggersActive: bool) returns (tables: Tables)
    ensures tables.Keys == s.tables.Keys
    ensures forall t :: t in tables ==> tables[t] == CaptureResult(s, c, true, triggersActive, t)
  {
    tables := s.tables;
    if c.triggerFed {
      if c.triggersInstalled {
        tables := SyncTables(s, CommitHook, tables.Keys);
      } else {
        var failed;
        tables, failed := ApplyCaptured(tables, c.triggerDeltas);
        var scanned := if c.unknownWrites then tables.Keys else failed * tables.Keys;
        tables := SyncTables(s.(tables := tables), CommitHook, scanned);
      }
    } else if c.sawStatements && !c.unknownWrites {
      tables := SyncTables(s, CommitHook, c.touched * tables.Keys);
    } else if !(!c.sawStatements && triggersActive) {
      tables := SyncTables(s, CommitHook, tables.Keys);
    }
  }

  // The commit hook. `s` already holds the committed rows and no longer lists
  // the transaction as active.
  method RunCommitHook(s: State, capture: Capture, autoSync: bool, triggersActive: bool) returns (tables: Tables)
    ensures tables.Keys == s.tables.Keys
    ensures forall t :: t in tables ==> tables[t] == HookResult(s, capture, autoSync, triggersActive, t)
  {
    tables := s.tables;
    if !autoSync {
      return;
    }
    tables := TakeCapture(s, capture, triggersActive);
    tables := SyncTables(s.(tables := tables), CommitHook, Owed(s.live, tables));
  }

  // One transaction's writes to a table take one route: its snapshot has the
  // table's triggers, or it has not.
  predicate OneRoute(c: Capture, t: Table, writes: ZSet<Row>) {
    t in c.triggerDeltas ==> c.triggerDeltas[t] == writes
  }

  // A trusted table stays exact through a commit if and only if the capture
  // accounts for it, or the transaction did not change it.
  lemma CommitExactIff(s: State, c: Capture, autoSync: bool, triggersActive: bool, t: Table, before: ZSet<Row>, writes: ZSet<Row>)
    requires t in s.tables && s.tables[t].baseline.Seeded? && s.tables[t].content == before
    requires Normal(before) && Normal(writes) && OneRoute(c, t, writes)
    requires Stored(s.committed, t) == Plus(before, writes)
    ensures HookResult(s, c, autoSync, triggersActive, t).baseline.Seeded?
    ensures HookResult(s, c, autoSync, triggersActive, t).content == Stored(s.committed, t)
            <==> Accounted(c, autoSync, triggersActive, t) || writes == map[]
  {
    CancelPlus(before, writes, map[]);
    Extensional(Plus(before, map[]), before);
  }

  // In a trigger-fed commit, with every statement classified, that is: the
  // table was not touched, or its triggers reported.
  lemma FedExactIff(s: State, txn: Txn, triggersActive: bool, t: Table, before: ZSet<Row>)
    requires t in s.tables && s.tables[t].baseline.Seeded? && s.tables[t].content == before
    requires Normal(before) && Normal(WritesTo(txn, t)) && OneRoute(txn.capture, t, WritesTo(txn, t))
    requires Stored(s.committed, t) == Plus(before, WritesTo(txn, t))
    requires txn.capture.triggerFed && !txn.capture.triggersInstalled && !txn.capture.unknownWrites
    requires t !in txn.capture.touched ==> WritesTo(txn, t) == map[]
    ensures HookResult(s, txn.capture, true, triggersActive, t).content == Stored(s.committed, t)
            <==> t !in txn.capture.touched || t in txn.capture.triggerDeltas || WritesTo(txn, t) == map[]
  {
    CommitExactIff(s, txn.capture, true, triggersActive, t, before, WritesTo(txn, t));
  }

  lemma CancelPlus(a: ZSet<Row>, b: ZSet<Row>, d: ZSet<Row>)
    requires Normal(b) && Normal(d)
    ensures Plus(a, b) == Plus(a, d) <==> b == d
  {
    if Plus(a, b) == Plus(a, d) {
      forall x ensures W(b, x) == W(d, x) {
        assert W(Plus(a, b), x) == W(Plus(a, d), x);
      }
      Extensional(b, d);
    }
  }

  // After a commit with auto-sync on no table waits for what has ended: the
  // sweep trusts, with the committed content, every provisional table whose
  // transactions have all ended, and every deferred one once nothing is open.
  ghost predicate CommitSettles(live: Live, stored: ZSet<Row>, before: TrackedTable, after: TrackedTable) {
    && (before.baseline == Seeded ==> after.baseline == Seeded)
    && (before.baseline == Provisional ==> (after.baseline == Seeded <==> AllEnded(live, before.watermark)))
    && (before.baseline == Deferred ==> (after.baseline == Seeded <==> live == map[]))
    && (before.baseline == Unseeded && after.baseline == Seeded ==> live == map[])
    && (before.baseline != Seeded && after.baseline == Seeded ==> after.content == stored)
    && StateKept(before, after)
  }

  lemma HookSettles(s: State, c: Capture, triggersActive: bool, t: Table)
    requires t in s.tables && forall x :: x in s.live ==> s.live[x].start < s.clock
    ensures CommitSettles(s.live, Stored(s.committed, t), s.tables[t], HookResult(s, c, true, triggersActive, t))
  {
    var before, stored := s.tables[t], Stored(s.committed, t);
    ScanEstablishes(s.live, s.clock, CommitHook, stored, before);
    ScanEstablishes(s.live, s.clock, CommitHook, stored, Rescan(s.live, CommitHook, stored, before));
  }

  // With auto-sync off nothing moves.
  lemma OffSettlesNothing(s: State, c: Capture, triggersActive: bool, t: Table)
    requires t in s.tables
    ensures HookResult(s, c, false, triggersActive, t) == s.tables[t]
  {
  }

  // The hook, and what it establishes.
  method CommitTables(s: State, c: Capture, autoSync: bool, triggersActive: bool) returns (tables: Tables)
    requires forall x :: x in s.live ==> s.live[x].start < s.clock
    ensures tables.Keys == s.tables.Keys
    ensures forall t :: t in tables ==> tables[t] == HookResult(s, c, autoSync, triggersActive, t)
    ensures autoSync ==> forall t :: t in tables ==> CommitSettles(s.live, Stored(s.committed, t), s.tables[t], tables[t])
    ensures !autoSync ==> tables == s.tables
  {
    tables := RunCommitHook(s, c, autoSync, triggersActive);
    if autoSync {
      forall t | t in tables ensures CommitSettles(s.live, Stored(s.committed, t), s.tables[t], tables[t]) {
        HookSettles(s, c, triggersActive, t);
      }
    } else {
      forall t | t in tables ensures tables[t] == s.tables[t] {
        OffSettlesNothing(s, c, triggersActive, t);
      }
    }
  }

  // ---- what a commit leaves untold ----

  // What the commit's writes and the applied images differ in.
  function Untold(c: Capture, autoSync: bool, t: Table, writes: ZSet<Row>): ZSet<Row> {
    Minus(writes, if Applies(c, autoSync) then FedTo(c, t) else map[])
  }

  // A scan settles a table's account; otherwise the untold writes are added.
  function DroppedAfter(s: State, d: Dropped, c: Capture, autoSync: bool, triggersActive: bool, writes: map<Table, ZSet<Row>>): Dropped {
    map t | t in s.tables ::
      if !s.tables[t].baseline.Seeded? || ScannedAtCommit(s.tables, c, autoSync, triggersActive, t) then map[]
      else Plus(DroppedOf(d, t), Untold(c, autoSync, t, if t in writes then writes[t] else map[]))
  }

  lemma AccountKept(content: ZSet<Row>, content': ZSet<Row>, dropped: ZSet<Row>, fed: ZSet<Row>,
                    before: ZSet<Row>, writes: ZSet<Row>, stored: ZSet<Row>)
    requires Plus(content, dropped) == before && stored == Plus(before, writes)
    requires content' == if fed != map[] then Plus(content, fed) else content
    ensures Plus(content', Plus(dropped, Minus(writes, fed))) == stored
  {
    var all := Plus(content', Plus(dropped, Minus(writes, fed)));
    forall x ensures W(all, x) == W(stored, x) {
      assert W(stored, x) == W(before, x) + W(writes, x);
      assert W(before, x) == W(content, x) + W(dropped, x);
      assert W(content', x) == W(content, x) + W(fed, x);
    }
    Extensional(all, stored);
  }

  // A trusted table's account stays right through a commit.
  lemma SeededCommitKeeps(s: State, c: Capture, autoSync: bool, triggersActive: bool, t: Table, before: ZSet<Row>,
                          dropped: ZSet<Row>, writes: ZSet<Row>, clock: nat)
    requires t in s.tables && s.tables[t].baseline.Seeded? && Awaited(s.live, t, s.tables[t])
    requires Plus(s.tables[t].content, dropped) == before && Stored(s.committed, t) == Plus(before, writes)
    requires forall x :: x in s.live ==> s.live[x].start < clock
    ensures var after := HookResult(s, c, autoSync, triggersActive, t);
            var dropped' := if ScannedAtCommit(s.tables, c, autoSync, triggersActive, t) then map[]
                            else Plus(dropped, Untold(c, autoSync, t, writes));
            Trusted(s.live, t, Stored(s.committed, t), dropped', after)
  {
    var stored := Stored(s.committed, t);
    if ScannedAtCommit(s.tables, c, autoSync, triggersActive, t) {
      var fed := if Applies(c, autoSync) && FedTo(c, t) != map[]
                 then s.tables[t].(content := Plus(s.tables[t].content, FedTo(c, t))) else s.tables[t];
      RescanKeepsTrust(s.live, CommitHook, t, stored, fed, clock);
    } else {
      AccountKept(s.tables[t].content, HookResult(s, c, autoSync, triggersActive, t).content, dropped,
                  if Applies(c, autoSync) then FedTo(c, t) else map[], before, writes, stored);
    }
  }

  // A table that was not trusted stays within the protocol as well.
  lemma CommitKeepsTrust(s: State, c: Capture, autoSync: bool, triggersActive: bool, t: Table, clock: nat)
    requires t in s.tables && !s.tables[t].baseline.Seeded? && Awaited(s.live, t, s.tables[t]) && Normal(Stored(s.committed, t))
    requires forall x :: x in s.live ==> s.live[x].start < clock
    ensures Trusted(s.live, t, Stored(s.committed, t), map[], HookResult(s, c, autoSync, triggersActive, t))
  {
    var stored := Stored(s.committed, t);
    RescanKeepsTrust(s.live, CommitHook, t, stored, s.tables[t], clock);
    var mid := if ScannedAtCommit(s.tables, c, autoSync, triggersActive, t)
               then Rescan(s.live, CommitHook, stored, s.tables[t]) else s.tables[t];
    RescanKeepsTrust(s.live, CommitHook, t, stored, mid, clock);
  }

  // "Every route out of not knowing what a transaction wrote ends in a scan"
  // fails here: one table's triggers fired, another tracked table was written
  // without its triggers firing, and the commit applies the first delta only.
  lemma FedCommitForgetsTouched(fed: Table, silent: Table, rows: ZSet<Row>)
    requires fed != silent && rows != map[] && Normal(rows)
    ensures var trusted := TrackedTable(Seeded, map[], 0, false);
            var s := State(map[fed := rows, silent := rows], map[], 1, map[fed := trusted, silent := trusted]);
            var c := Capture(true, false, {fed, silent}, map[fed := rows], true, false);
            var after := HookResult(s, c, true, true, silent);
            after.baseline.Seeded? && after.content != Stored(s.committed, silent)
  {
  }

  // ---- statements of a transaction ----

  // How a write reaches the hooks: its triggers fired, they did not (the
  // transaction's snapshot is older than them), a firing lost its rows, or the
  // statement could not be classified. With auto-sync off no statement is
  // classified, but trigger bodies still report.
  datatype Route = Fires | Silent | Failed | Unclassified

  function Written(txn: Txn, autoSync: bool, tracked: bool, t: Table, delta: ZSet<Row>, route: Route): Txn {
    var c := if autoSync then txn.capture.(sawStatements := true) else txn.capture;
    var named := if autoSync then c.(touched := c.touched + {t}) else c;
    var next := txn.(writes := txn.writes[t := Plus(WritesTo(txn, t), delta)]);
    if !tracked then next.(early := txn.early + {t}, capture := c)
    else
      match route
      case Fires => next.(capture := named.(triggerFed := true,
                                            triggerDeltas := c.triggerDeltas[t := Plus(FedTo(c, t), delta)]))
      case Failed => next.(capture := named.(triggerFed := true, unknownWrites := true))
      case Silent =>
        if autoSync then next.(capture := named, silent := txn.silent + {t})
        else next.(silent := txn.silent + {t}, unseen := txn.unseen + {t})
      case Unclassified =>
        if autoSync then next.(capture := c.(unknownWrites := true))
        else next.(silent := txn.silent + {t}, unseen := txn.unseen + {t})
  }

  lemma WrittenMaps(txn: Txn, autoSync: bool, tracked: bool, t: Table, delta: ZSet<Row>, route: Route, u: Table)
    ensures var next := Written(txn, autoSync, tracked, t, delta, route);
            && WritesTo(next, u) == (if u == t then Plus(WritesTo(txn, t), delta) else WritesTo(txn, u))
            && FedTo(next.capture, u)
               == (if u == t && tracked && route.Fires? then Plus(FedTo(txn.capture, t), delta) else FedTo(txn.capture, u))
  {
  }

  lemma WrittenKeepsCapture(txn: Txn, autoSync: bool, tracked: bool, t: Table, delta: ZSet<Row>, route: Route)
    requires NormalTxn(txn) && CaptureTrue(txn)
    ensures NormalTxn(Written(txn, autoSync, tracked, t, delta, route))
    ensures CaptureTrue(Written(txn, autoSync, tracked, t, delta, route))
    ensures Written(txn, autoSync, tracked, t, delta, route).start == txn.start
  {
    var next := Written(txn, autoSync, tracked, t, delta, route);
    forall u
      ensures WritesTo(next, u) == if u == t then Plus(WritesTo(txn, t), delta) else WritesTo(txn, u)
      ensures FedTo(next.capture, u)
           == if u == t && tracked && route.Fires? then Plus(FedTo(txn.capture, t), delta) else FedTo(txn.capture, u)
    {
      WrittenMaps(txn, autoSync, tracked, t, delta, route, u);
    }
  }

  // An untracked table's writes will not be reported any more.
  function Orphaned(live: Live, t: Table): Live {
    map x | x in live :: if t in live[x].writes then live[x].(early := live[x].early + {t}) else live[x]
  }

  lemma OrphanedKeepsLive(live: Live, t: Table, clock: nat)
    requires LiveTrue(live, clock)
    ensures LiveTrue(Orphaned(live, t), clock)
    ensures forall x, u :: x in live && u != t ==> (u in Orphaned(live, t)[x].early <==> u in live[x].early)
  {
    forall x | x in live ensures CaptureTrue(Orphaned(live, t)[x]) && NormalTxn(Orphaned(live, t)[x]) {
      var a, b := live[x], Orphaned(live, t)[x];
      assert forall u :: WritesTo(b, u) == WritesTo(a, u);
    }
  }

  // ---- the whole commit ----

  // The commit leaves nothing untold about a table: auto-sync is on, and the
  // table is scanned, or none of its writes was missed by the triggers of a
  // trigger-fed transaction or made while auto-sync was off.
  predicate TellsAll(s: State, txn: Txn, autoSync: bool, triggersActive: bool, t: Table)
    requires t in s.tables
  {
    autoSync && (ScannedAtCommit(s.tables, txn.capture, autoSync, triggersActive, t)
                 || (t !in txn.unseen && (Applies(txn.capture, autoSync) ==> t !in txn.silent)))
  }

  lemma TellsAllLeavesNothing(s: State, txn: Txn, autoSync: bool, triggersActive: bool, t: Table)
    requires t in s.tables && s.tables[t].baseline.Seeded? && t !in txn.early
    requires CaptureTrue(txn) && TellsAll(s, txn, autoSync, triggersActive, t)
    requires !ScannedAtCommit(s.tables, txn.capture, autoSync, triggersActive, t)
    ensures Untold(txn.capture, autoSync, t, WritesTo(txn, t)) == map[]
  {
    var c := txn.capture;
    assert FedTo(c, t) != map[] ==> c.triggerFed;
    if Applies(c, autoSync) {
      assert FedTo(c, t) == WritesTo(txn, t);
    } else {
      assert WritesTo(txn, t) == map[];
    }
  }

  function Committed(committed: map<Table, ZSet<Row>>, txn: Txn): map<Table, ZSet<Row>> {
    map t | t in committed.Keys + txn.writes.Keys :: Plus(Stored(committed, t), WritesTo(txn, t))
  }

  lemma StoredAfter(committed: map<Table, ZSet<Row>>, txn: Txn, t: Table)
    requires forall u :: u in committed ==> Normal(committed[u])
    ensures Stored(Committed(committed, txn), t) == Plus(Stored(committed, t), WritesTo(txn, t))
  {
    if t !in committed && t !in txn.writes {
      var none: ZSet<Row> := map[];
      Extensional(none, Plus(none, none));
    }
  }

  // The state the commit hook sees: the rows are visible, the transaction has
  // left the active set.
  function AtHook(s: State, x: TxnId): State
    requires x in s.live
  {
    State(Committed(s.committed, s.live[x]), s.live - {x}, s.clock, s.tables)
  }

  lemma CommitKeepsInv(s: State, d: Dropped, x: TxnId, autoSync: bool, triggersActive: bool, tables: Tables)
    requires Inv(s, d) && x in s.live && tables.Keys == s.tables.Keys
    requires forall t :: t in tables ==> tables[t] == HookResult(AtHook(s, x), s.live[x].capture, autoSync, triggersActive, t)
    ensures Inv(AtHook(s, x).(tables := tables), DroppedAfter(AtHook(s, x), d, s.live[x].capture, autoSync, triggersActive, s.live[x].writes))
  {
    var mid, txn := AtHook(s, x), s.live[x];
    var d' := DroppedAfter(mid, d, txn.capture, autoSync, triggersActive, txn.writes);
    forall t | t in tables
      ensures Normal(tables[t].content)
      ensures Trusted(mid.live, t, Stored(mid.committed, t), DroppedOf(d', t), tables[t])
    {
      CommitKeepsTable(s, d, x, autoSync, triggersActive, t);
    }
  }

  lemma CommitKeepsTable(s: State, d: Dropped, x: TxnId, autoSync: bool, triggersActive: bool, t: Table)
    requires Inv(s, d) && x in s.live && t in s.tables
    ensures var mid, txn := AtHook(s, x), s.live[x];
            var after := HookResult(mid, txn.capture, autoSync, triggersActive, t);
            var d' := DroppedAfter(mid, d, txn.capture, autoSync, triggersActive, txn.writes);
            Normal(after.content) && Trusted(mid.live, t, Stored(mid.committed, t), DroppedOf(d', t), after)
  {
    var mid, txn := AtHook(s, x), s.live[x];
    StoredAfter(s.committed, txn, t);
    FewerLive(s.live, x, t, s.tables[t]);
    HookNormal(mid, txn.capture, autoSync, triggersActive, t);
    assert Trusted(s.live, t, Stored(s.committed, t), DroppedOf(d, t), s.tables[t]);
    if s.tables[t].baseline.Seeded? {
      SeededCommitKeeps(mid, txn.capture, autoSync, triggersActive, t, Stored(s.committed, t), DroppedOf(d, t), WritesTo(txn, t), s.clock);
    } else {
      CommitKeepsTrust(mid, txn.capture, autoSync, triggersActive, t, s.clock);
    }
  }

  lemma FewerLive(live: Live, x: TxnId, t: Table, table: TrackedTable)
    requires Awaited(live, t, table)
    ensures Awaited(live - {x}, t, table)
  {
  }

  lemma HookNormal(s: State, c: Capture, autoSync: bool, triggersActive: bool, t: Table)
    requires t in s.tables && Normal(s.tables[t].content) && Normal(Stored(s.committed, t))
    ensures Normal(HookResult(s, c, autoSync, triggersActive, t).content)
  {
  }

  // A commit that tells all about a table adds nothing to its account.
  lemma NothingAdded(s: State, d: Dropped, x: TxnId, autoSync: bool, triggersActive: bool, t: Table)
    requires Inv(s, d) && x in s.live && t in s.tables && DroppedOf(d, t) == map[]
    requires s.tables[t].baseline.Seeded? ==> TellsAll(AtHook(s, x), s.live[x], autoSync, triggersActive, t)
    ensures DroppedOf(DroppedAfter(AtHook(s, x), d, s.live[x].capture, autoSync, triggersActive, s.live[x].writes), t) == map[]
  {
    var mid, txn := AtHook(s, x), s.live[x];
    if s.tables[t].baseline.Seeded? && !ScannedAtCommit(mid.tables, txn.capture, autoSync, triggersActive, t) {
      assert Trusted(s.live, t, Stored(s.committed, t), DroppedOf(d, t), s.tables[t]);
      TellsAllLeavesNothing(mid, txn, autoSync, triggersActive, t);
      var none: ZSet<Row> := map[];
      Extensional(Plus(none, none), none);
    }
  }

  // ---- one transaction, or one table, replaced ----

  lemma TxnReplaced(s: State, d: Dropped, x: TxnId, txn: Txn)
    requires Inv(s, d) && x in s.live && txn.start == s.live[x].start && NormalTxn(txn) && CaptureTrue(txn)
    requires forall t :: t in s.tables && t in txn.early ==> t in s.live[x].early
    ensures Inv(s.(live := s.live[x := txn]), d)
  {
    forall t | t in s.tables ensures Trusted(s.live[x := txn], t, Stored(s.committed, t), DroppedOf(d, t), s.tables[t]) {
      assert Trusted(s.live, t, Stored(s.committed, t), DroppedOf(d, t), s.tables[t]);
    }
  }

  lemma TableReplaced(s: State, d: Dropped, d': Dropped, t: Table, table: TrackedTable, clock: nat)
    requires Inv(s, d) && clock >= s.clock && Normal(table.content)
    requires Trusted(s.live, t, Stored(s.committed, t), DroppedOf(d', t), table)
    requires d' == d || d' == d - {t}
    ensures Inv(s.(tables := s.tables[t := table], clock := clock), d')
  {
    forall u | u in s.tables && u != t ensures Trusted(s.live, u, Stored(s.committed, u), DroppedOf(d', u), s.tables[u]) {
      assert DroppedOf(d', u) == DroppedOf(d, u);
    }
  }

  lemma FreshTrusted(live: Live, t: Table, stored: ZSet<Row>, dropped: ZSet<Row>)
    ensures Trusted(live, t, stored, dropped, FreshTable)
  {
  }

  // A deferred seed trusts nothing that was not trusted, and a provisional
  // table keeps waiting.
  lemma DeferredTrusted(live: Live, t: Table, stored: ZSet<Row>, dropped: ZSet<Row>, table: TrackedTable, mark: nat, tainted: bool)
    requires Trusted(live, t, stored, dropped, table)
    ensures Trusted(live, t, stored, dropped, table.MarkSeedDeferred(mark, tainted))
  {
  }

  // What a deferral notes down. The first debt waits for everything that is
  // open now and for nothing that starts later; a retry leaves it as it is. A
  // table is tainted if it joined the tracked set in a transaction that had
  // already changed something.
  ghost predicate DebtNoted(live: Live, now: nat, txn: Txn, newTracking: bool, before: TrackedTable, after: TrackedTable) {
    && after.content == before.content
    && (before.baseline == Seeded || before.baseline == Provisional ==>
          after.baseline == before.baseline && after.watermark == before.watermark)
    && (before.baseline == Unseeded || before.baseline == Deferred ==>
          after.baseline == Deferred && DebtWaits(live, now, newTracking, before.watermark, after.watermark))
    && (after.preTriggerRows <==> before.preTriggerRows || (newTracking && exists u :: WritesTo(txn, u) != map[]))
  }

  ghost predicate DebtWaits(live: Live, now: nat, newTracking: bool, before: nat, after: nat) {
    if newTracking || before == 0
    then before <= after && (after == before || after <= now) && forall x :: x in live ==> live[x].start < after
    else after == before
  }

  lemma DeferralNotes(live: Live, now: nat, txn: Txn, newTracking: bool, changes: bool, mark: nat, t: TrackedTable)
    requires forall x :: x in live ==> live[x].start < now
    requires mark == if newTracking || t.watermark == 0 then now else t.watermark
    requires changes <==> exists u :: WritesTo(txn, u) != map[]
    ensures DebtNoted(live, now, txn, newTracking, t, t.MarkSeedDeferred(mark, newTracking && changes))
  {
  }

  lemma StoredNormal(s: State, d: Dropped, t: Table)
    requires Inv(s, d)
    ensures Normal(Stored(s.committed, t))
  {
  }

  // What a seed makes of a table: scanned, and trusted at once when no older
  // transaction is open, otherwise provisionally.
  function SeededAt(live: Live, start: nat, stored: ZSet<Row>, t: TrackedTable): TrackedTable {
    var scanned := t.(content := stored).MarkSeeded();
    if NoActiveStartBefore(live, start) then scanned else scanned.MarkProvisional(start + 1)
  }

  // A seed reads what is committed. It is trusted at once while nothing else is
  // open, and otherwise waits for everything that is.
  ghost predicate SeedSettles(live: Live, stored: ZSet<Row>, before: TrackedTable, after: TrackedTable) {
    && after.content == stored
    && (live == map[] && (before.baseline == Unseeded || before.baseline == Deferred) ==> after.baseline == Seeded && after.watermark == 0)
    && (live == map[] && (before.baseline == Seeded || before.baseline == Provisional) ==> after.baseline == before.baseline)
    && (live != map[] ==> after.baseline == Provisional && forall x :: x in live ==> live[x].start < after.watermark)
  }

  lemma SeedEstablishes(live: Live, clock: nat, stored: ZSet<Row>, t: TrackedTable)
    requires forall x :: x in live ==> live[x].start < clock
    ensures SeedSettles(live, stored, t, SeededAt(live, clock, stored, t))
  {
    NobodyOlder(live, clock, clock);
  }

  lemma SeededAtTrusted(s: State, d: Dropped, t: Table, table: TrackedTable)
    requires Inv(s, d) && Awaited(s.live, t, table)
    ensures Trusted(s.live, t, Stored(s.committed, t), map[], SeededAt(s.live, s.clock, Stored(s.committed, t), table))
  {
    NobodyOlder(s.live, s.clock, s.clock);
    StoredNormal(s, d, t);
    ExactIsTrusted(s.live, t, Stored(s.committed, t), SeededAt(s.live, s.clock, Stored(s.committed, t), table));
  }

  lemma SeededKeepsInv(s: State, d: Dropped, t: Table, table: TrackedTable)
    requires Inv(s, d) && t in s.tables && table == SeededAt(s.live, s.clock, Stored(s.committed, t), s.tables[t])
    ensures Inv(s.(tables := s.tables[t := table], clock := s.clock + 2), d - {t})
    ensures SeedSettles(s.live, Stored(s.committed, t), s.tables[t], table)
  {
    assert Trusted(s.live, t, Stored(s.committed, t), DroppedOf(d, t), s.tables[t]);
    SeedEstablishes(s.live, s.clock, Stored(s.committed, t), s.tables[t]);
    StoredNormal(s, d, t);
    SeededAtTrusted(s, d, t, s.tables[t]);
    TableReplaced(s, d, d - {t}, t, table, s.clock + 2);
  }
}
