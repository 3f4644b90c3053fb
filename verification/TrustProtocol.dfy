// The change-capture manager over whole runs of transactions, trackings and
// scans. Every method is one atomic protocol step; `Valid()` is what every
// step keeps.
module TrustProtocol {
  import opened ZSets
  import opened Rows
  import opened Trust

  class CdcManager {
    var committed: map<Table, ZSet<Row>>
    var live: Live
    var clock: nat
    var tables: Tables
    var autoSync: bool
    const triggersActive: bool

    // For the specification: what each trusted baseline was not told since its
    // last scan, and the tables of which every commit since then told all.
    ghost var dropped: Dropped
    ghost var told: set<Table>

    function Snapshot(): State
      reads this
    {
      State(committed, live, clock, tables)
    }

    ghost predicate Valid()
      reads this
    {
      && Inv(Snapshot(), dropped)
      && forall t :: t in told ==> DroppedOf(dropped, t) == map[]
    }

    // The safety statement: a trusted baseline and what it was not told since
    // its last scan are the committed content, and no open transaction holds a
    // write to the table that nobody will report. So the baseline is exact if
    // and only if nothing was left untold, or what was cancels out.
    lemma SeededIsExactIff(t: Table)
      requires Valid() && t in tables && tables[t].baseline.Seeded?
      ensures Plus(tables[t].content, DroppedOf(dropped, t)) == Stored(committed, t)
      ensures tables[t].content == Stored(committed, t) <==> DroppedOf(dropped, t) == map[]
      ensures forall x :: x in live ==> t !in live[x].early
    {
      assert Trusted(live, t, Stored(committed, t), DroppedOf(dropped, t), tables[t]);
      ExactIffNothingDropped(live, t, Stored(committed, t), DroppedOf(dropped, t), tables[t]);
    }

    // In particular it is exact while every commit since the last scan
    // happened with auto-sync on and told all about the table.
    lemma ToldIsExact(t: Table)
      requires Valid() && t in told && t in tables && tables[t].baseline.Seeded?
      ensures tables[t].content == Stored(committed, t)
    {
      SeededIsExactIff(t);
    }

    constructor (triggersActive: bool)
      ensures Valid() && tables == map[] && live == map[] && committed == map[] && autoSync
      ensures this.triggersActive == triggersActive && clock == 1 && told == {}
    {
      this.triggersActive, autoSync := triggersActive, true;
      committed, live, clock, tables := map[], map[], 1, map[];
      dropped, told := map[], {};
    }

    // dbsp_auto_sync: touches no baseline.
    method SetAutoSync(on: bool)
      requires Valid()
      modifies this`autoSync
      ensures Valid() && autoSync == on
    {
      autoSync := on;
    }

    method Begin() returns (x: TxnId)
      requires Valid()
      modifies this`live, this`clock
      ensures Valid() && x !in old(live) && live == old(live)[x := Txn(x, map[], {}, {}, {}, NoCapture, {})]
    {
      x := clock;
      live := live[x := Txn(clock, map[], {}, {}, {}, NoCapture, {})];
      clock := clock + 1;
    }

    method Write(x: TxnId, t: Table, delta: ZSet<Row>, route: Route)
      requires Valid() && x in live && Normal(delta)
      modifies this`live
      ensures Valid() && live == old(live)[x := Written(old(live)[x], autoSync, t in tables, t, delta, route)]
    {
      var txn := Written(live[x], autoSync, t in tables, t, delta, route);
      WrittenKeepsCapture(live[x], autoSync, t in tables, t, delta, route);
      TxnReplaced(Snapshot(), dropped, x, txn);
      live := live[x := txn];
    }

    // The trigger sweep at a statement's start found bodies that do not match
    // the tracked tables: this transaction's commit must scan.
    method SweepFoundMismatch(x: TxnId)
      requires Valid() && x in live
      modifies this`live
      ensures Valid() && live == old(live)[x := old(live)[x].(capture := old(live)[x].capture.(triggersInstalled := true))]
    {
      var txn := live[x].(capture := live[x].capture.(triggersInstalled := true));
      assert forall t :: WritesTo(txn, t) == WritesTo(live[x], t) && FedTo(txn.capture, t) == FedTo(live[x].capture, t);
      TxnReplaced(Snapshot(), dropped, x, txn);
      live := live[x := txn];
    }

    // dbsp_track: the table joins the tracked set, unscanned.
    method Track(caller: Option<TxnId>, t: Table)
      requires Valid() && (caller.Some? ==> caller.value in live)
      modifies this`tables, this`live, this`dropped, this`told
      ensures Valid() && tables == if t in old(tables) then old(tables) else old(tables)[t := FreshTable]
      ensures live == if t in old(tables) || caller.None? then old(live) else Noted(old(live), caller.value, t)
    {
      if t in tables {
        return;
      }
      AddFresh(t);
      if caller.Some? {
        NoteTracked(caller.value, t);
      }
    }

    method AddFresh(t: Table)
      requires Valid()
      modifies this`tables, this`dropped, this`told
      ensures Valid() && tables == old(tables)[t := FreshTable]
      ensures dropped == old(dropped) - {t} && told == old(told) - {t}
    {
      FreshTrusted(live, t, Stored(committed, t), map[]);
      TableReplaced(Snapshot(), dropped, dropped - {t}, t, FreshTable, clock);
      tables, dropped, told := tables[t := FreshTable], dropped - {t}, told - {t};
    }

    // The transaction remembers the tables it tracked, for its rollback.
    static function Noted(live: Live, x: TxnId, t: Table): Live
      requires x in live
    {
      live[x := live[x].(trackedHere := live[x].trackedHere + {t})]
    }

    method NoteTracked(x: TxnId, t: Table)
      requires Valid() && x in live
      modifies this`live
      ensures Valid() && live == Noted(old(live), x, t)
    {
      var txn := live[x].(trackedHere := live[x].trackedHere + {t});
      assert forall u :: WritesTo(txn, u) == WritesTo(live[x], u);
      TxnReplaced(Snapshot(), dropped, x, txn);
      live := live[x := txn];
    }

    // Does the caller's transaction hold any uncommitted change?
    static predicate ChangesMade(txn: Txn) {
      exists t :: t in txn.writes && txn.writes[t] != map[]
    }

    static lemma ChangesAreMade(txn: Txn)
      ensures ChangesMade(txn) <==> exists u :: WritesTo(txn, u) != map[]
    {
      if ChangesMade(txn) {
        var t :| t in txn.writes && txn.writes[t] != map[];
        assert WritesTo(txn, t) != map[];
      }
    }

    // The deferral: a fresh watermark for a new table or one without, and the
    // taint of changes made before the table was tracked.
    static function DeferredBy(t: TrackedTable, probe: nat, newTracking: bool, changes: bool): TrackedTable {
      t.MarkSeedDeferred(if newTracking || t.watermark == 0 then probe else t.watermark, newTracking && changes)
    }

    // seed_baseline inside an open transaction: the scan is owed until every
    // transaction active now has ended.
    method DeferSeed(x: TxnId, t: Table, newTracking: bool)
      requires Valid() && x in live && t in tables
      modifies this`tables, this`clock
      ensures Valid() && clock == old(clock) + 1
      ensures tables == old(tables)[t := DeferredBy(old(tables)[t], old(clock), newTracking, ChangesMade(live[x]))]
      ensures DebtNoted(live, old(clock), live[x], newTracking, old(tables)[t], tables[t])
    {
      ChangesAreMade(live[x]);
      var table := DeferredBy(tables[t], clock, newTracking, ChangesMade(live[x]));
      var recorded := tables[t].watermark;
      ghost var mark := if newTracking || recorded == 0 then clock else recorded;
      DeferredTrusted(live, t, Stored(committed, t), DroppedOf(dropped, t), tables[t], mark,
                      newTracking && ChangesMade(live[x]));
      DeferralNotes(live, clock, live[x], newTracking, ChangesMade(live[x]), mark, tables[t]);
      TableReplaced(Snapshot(), dropped, dropped, t, table, clock + 1);
      tables := tables[t := table];
      clock := clock + 1;
    }

    method ScanForSeed(t: Table) returns (table: TrackedTable)
      requires t in tables
      ensures table == SeededAt(live, clock, Stored(committed, t), tables[t])
    {
      table := tables[t].(content := Stored(committed, t)).MarkSeeded();
      if !NoActiveStartBefore(live, clock) {
        table := table.MarkProvisional(clock + 1);
      }
    }

    // seed_baseline in an autocommit statement: scan, then check for a
    // transaction older than the statement. Begin and scan are one step.
    method SeedNow(t: Table)
      requires Valid() && t in tables
      modifies this`tables, this`clock, this`dropped, this`told
      ensures Valid() && clock == old(clock) + 2 // the statement's own start and, maybe, a probe
      ensures dropped == old(dropped) - {t} && told == old(told) + {t}
      ensures tables == old(tables)[t := SeededAt(live, old(clock), Stored(committed, t), old(tables)[t])]
      ensures SeedSettles(live, Stored(committed, t), old(tables)[t], tables[t])
    {
      var table := ScanForSeed(t);
      SeededKeepsInv(Snapshot(), dropped, t, table);
      tables, dropped, told := tables[t := table], dropped - {t}, told + {t};
      clock := clock + 2;
    }

    // What seed_baseline makes of a table.
    static function Established(live: Live, clock: nat, caller: Option<TxnId>, stored: ZSet<Row>, t: TrackedTable, newTracking: bool)
      : TrackedTable
      requires caller.Some? ==> caller.value in live
    {
      if caller.Some? then DeferredBy(t, clock, newTracking, ChangesMade(live[caller.value]))
      else SeededAt(live, clock, stored, t)
    }

    method Establish(caller: Option<TxnId>, t: Table, newTracking: bool)
      requires Valid() && (caller.Some? ==> caller.value in live) && t in tables
      modifies this`tables, this`clock, this`dropped, this`told
      ensures Valid()
      ensures tables == old(tables)[t := Established(live, old(clock), caller, Stored(committed, t), old(tables)[t], newTracking)]
    {
      if caller.Some? {
        DeferSeed(caller.value, t, newTracking);
      } else {
        SeedNow(t);
      }
    }

    // track_table_internal: the auto-tracking of a view's source.
    method TrackSource(caller: Option<TxnId>, t: Table)
      requires Valid() && (caller.Some? ==> caller.value in live)
      modifies this`tables, this`clock, this`dropped, this`told
      ensures Valid()
      ensures t in old(tables) ==> tables == old(tables)
      ensures t !in old(tables) ==>
                tables == old(tables)[t := Established(live, old(clock), caller, Stored(committed, t), FreshTable, true)]
    {
      if t in tables {
        return;
      }
      AddFresh(t);
      Establish(caller, t, true);
    }

    // create_view over a source that was tracked but never established.
    method SeedSource(caller: Option<TxnId>, t: Table)
      requires Valid() && (caller.Some? ==> caller.value in live) && t in tables
      modifies this`tables, this`clock, this`dropped, this`told
      ensures Valid()
      ensures tables == if old(tables)[t].baseline.Provisional? || old(tables)[t].baseline.Seeded? then old(tables)
                        else old(tables)[t := Established(live, old(clock), caller, Stored(committed, t), old(tables)[t], false)]
    {
      if tables[t].baseline.Provisional? || tables[t].baseline.Seeded? {
        return;
      }
      Establish(caller, t, false);
    }

    // dbsp_sync: a scan from inside a transaction refreshes and establishes
    // nothing; outside one it may retire an untrusted state.
    method Sync(caller: Option<TxnId>, names: set<Table>)
      requires Valid() && (caller.Some? ==> caller.value in live) && names <= tables.Keys
      modifies this`tables, this`clock, this`dropped, this`told
      ensures Valid() && tables.Keys == old(tables.Keys)
      ensures var who := if caller.Some? then InTransaction else Statement(old(clock));
              forall t :: t in tables ==>
                tables[t] == if t in names then Rescan(live, who, Stored(committed, t), old(tables)[t]) else old(tables)[t]
      ensures forall t :: t in names ==> tables[t].content == Stored(committed, t)
      ensures caller.None? ==> forall t :: t in names ==> ScanSettles(live, old(tables)[t], tables[t])
      ensures caller.Some? ==> forall t :: t in names ==> tables[t] == old(tables)[t].(content := Stored(committed, t))
      ensures dropped == old(dropped) - names && told == old(told) + names
    {
      var who := if caller.Some? then InTransaction else Statement(clock);
      ScansSettle(who, names);
      var after := SyncTables(Snapshot(), who, names);
      SyncKeepsInv(Snapshot(), dropped, who, names, after);
      tables, dropped, told := after, dropped - names, told + names;
      clock := clock + 1;
    }

    lemma SyncKeepsInv(s: State, d: Dropped, who: Caller, names: set<Table>, after: Tables)
      requires Inv(s, d) && after.Keys == s.tables.Keys && (who.Statement? ==> who.start >= s.clock)
      requires forall t :: t in after ==>
                 after[t] == if t in names then Rescan(s.live, who, Stored(s.committed, t), s.tables[t]) else s.tables[t]
      ensures Inv(s.(tables := after, clock := s.clock + 1), d - names)
      ensures forall t :: t in names && t in after ==> after[t].content == Stored(s.committed, t)
    {
      forall t | t in after
        ensures Normal(after[t].content) && Trusted(s.live, t, Stored(s.committed, t), DroppedOf(d - names, t), after[t])
        ensures t in names ==> after[t].content == Stored(s.committed, t)
      {
        assert Trusted(s.live, t, Stored(s.committed, t), DroppedOf(d, t), s.tables[t]);
        StoredNormal(s, d, t);
        RescanKeepsTrust(s.live, who, t, Stored(s.committed, t), s.tables[t], s.clock);
      }
    }

    lemma ScansSettle(who: Caller, names: set<Table>)
      requires Valid() && names <= tables.Keys && (who.Statement? ==> who.start == clock) && !who.CommitHook?
      ensures who.Statement? ==>
                forall t :: t in names ==> ScanSettles(live, tables[t], Rescan(live, who, Stored(committed, t), tables[t]))
      ensures who.InTransaction? ==>
                forall t :: t in names ==> Rescan(live, who, Stored(committed, t), tables[t]) == tables[t].(content := Stored(committed, t))
    {
      forall t | t in names
        ensures who.Statement? ==> ScanSettles(live, tables[t], Rescan(live, who, Stored(committed, t), tables[t]))
      {
        if who.Statement? {
          ScanEstablishes(live, clock, who, Stored(committed, t), tables[t]);
        }
      }
    }

    // What a commit adds to the accounts, and the tables it told all about.
    ghost function DroppedBy(x: TxnId): Dropped
      requires x in live
      reads this
    {
      DroppedAfter(AtHook(Snapshot(), x), dropped, live[x].capture, autoSync, triggersActive, live[x].writes)
    }

    ghost function ToldBy(x: TxnId): set<Table>
      requires x in live
      reads this
    {
      set t | t in tables
        && ((t in told && (tables[t].baseline.Seeded? ==> TellsAll(AtHook(Snapshot(), x), live[x], autoSync, triggersActive, t)))
            || ScannedAtCommit(tables, live[x].capture, autoSync, triggersActive, t))
    }

    method Commit(x: TxnId)
      requires Valid() && x in live
      modifies this`committed, this`live, this`tables, this`dropped, this`told
      ensures Valid() && live == old(live) - {x} && tables.Keys == old(tables.Keys)
      ensures committed == Committed(old(committed), old(live)[x])
      ensures forall t :: t in tables ==>
                tables[t] == HookResult(old(AtHook(Snapshot(), x)), old(live)[x].capture, autoSync, triggersActive, t)
      ensures dropped == old(DroppedBy(x)) && told == old(ToldBy(x))
      ensures autoSync ==> forall t :: t in tables ==> CommitSettles(live, Stored(committed, t), old(tables)[t], tables[t])
      ensures !autoSync ==> tables == old(tables)
    {
      var mid := AtHook(Snapshot(), x);
      var after := CommitTables(mid, live[x].capture, autoSync, triggersActive);
      CommitKeepsInv(Snapshot(), dropped, x, autoSync, triggersActive, after);
      TellsNothingMore(x);
      Settle(mid.committed, mid.live, after, DroppedBy(x), ToldBy(x));
    }

    method Settle(committed': map<Table, ZSet<Row>>, live': Live, tables': Tables, ghost dropped': Dropped, ghost told': set<Table>)
      requires Inv(State(committed', live', clock, tables'), dropped')
      requires forall t :: t in told' ==> DroppedOf(dropped', t) == map[]
      modifies this`committed, this`live, this`tables, this`dropped, this`told
      ensures Valid() && committed == committed' && live == live' && tables == tables' && dropped == dropped' && told == told'
    {
      committed, live, tables, dropped, told := committed', live', tables', dropped', told';
    }

    lemma TellsNothingMore(x: TxnId)
      requires Valid() && x in live
      ensures forall t :: t in ToldBy(x) ==> DroppedOf(DroppedBy(x), t) == map[]
    {
      forall t | t in ToldBy(x) ensures DroppedOf(DroppedBy(x), t) == map[] {
        if t in told && (tables[t].baseline.Seeded? ==> TellsAll(AtHook(Snapshot(), x), live[x], autoSync, triggersActive, t)) {
          NothingAdded(Snapshot(), dropped, x, autoSync, triggersActive, t);
        }
      }
    }

    // A commit with auto-sync on tells all about a table all of whose writes
    // were classified and fired its triggers.
    lemma TellsWhatFired(x: TxnId)
      requires x in live && autoSync
      ensures forall t :: t in told * tables.Keys && t !in live[x].unseen + live[x].silent ==> t in ToldBy(x)
    {
    }

    method Untrack(t: Table)
      requires Valid()
      modifies this`tables, this`live
      ensures Valid() && tables == old(tables) - {t} && live == Orphaned(old(live), t)
      ensures live.Keys == old(live.Keys)
      ensures forall x :: x in live ==>
                live[x] == old(live)[x].(early := if t in old(live)[x].writes then old(live)[x].early + {t} else old(live)[x].early)
    {
      OrphanedKeepsLive(live, t, clock);
      UntrackedInv(Snapshot(), dropped, t);
      tables := tables - {t};
      live := Orphaned(live, t);
    }

    lemma UntrackedInv(s: State, d: Dropped, t: Table)
      requires Inv(s, d) && LiveTrue(Orphaned(s.live, t), s.clock)
      ensures Inv(s.(tables := s.tables - {t}, live := Orphaned(s.live, t)), d)
    {
      forall u | u in s.tables && u != t
        ensures Trusted(Orphaned(s.live, t), u, Stored(s.committed, u), DroppedOf(d, u), s.tables[u])
      {
        assert Trusted(s.live, u, Stored(s.committed, u), DroppedOf(d, u), s.tables[u]);
      }
    }

    // A rolled-back transaction takes the trackings it made with it.
    method Rollback(x: TxnId)
      requires Valid() && x in live
      modifies this`tables, this`live
      ensures Valid() && live.Keys == old(live.Keys) - {x} && tables == old(tables) - old(live)[x].trackedHere
    {
      var todo := live[x].trackedHere;
      live := live - {x};
      while todo != {}
        invariant Valid() && todo <= old(live)[x].trackedHere && live.Keys == old(live.Keys) - {x}
        invariant tables == old(tables) - (old(live)[x].trackedHere - todo)
        decreases todo
      {
        var t :| t in todo;
        todo := todo - {t};
        Untrack(t);
      }
    }
  }

  const TRUSTED: TrackedTable := TrackedTable(Seeded, map[], 0, false)

  // An empty table, tracked and scanned with nothing else open.
  method TrustedTable(t: Table) returns (m: CdcManager)
    ensures fresh(m) && m.Valid() && m.autoSync && m.live == map[] && m.committed == map[] && m.tables == map[t := TRUSTED]
  {
    m := new CdcManager(true);
    m.Track(None, t);
    m.SeedNow(t);
  }

  // The transaction of one reported write while auto-sync is off.
  function ReportedWrite(x: TxnId, t: Table, rows: ZSet<Row>): Txn {
    Txn(x, map[t := Plus(map[], rows)], {}, {}, {}, Capture(false, false, {}, map[t := Plus(map[], rows)], true, false), {})
  }

  lemma WriteReported(x: TxnId, t: Table, rows: ZSet<Row>)
    ensures Written(Txn(x, map[], {}, {}, {}, NoCapture, {}), false, true, t, rows, Fires) == ReportedWrite(x, t, rows)
    ensures Committed(map[], ReportedWrite(x, t, rows)) == map[t := Plus(map[], Plus(map[], rows))]
  {
  }

  // Its triggers report a write with auto-sync off.
  method WriteUnseen(m: CdcManager, t: Table, rows: ZSet<Row>) returns (x: TxnId)
    requires m.Valid() && m.live == map[] && t in m.tables && Normal(rows)
    modifies m`live, m`clock, m`autoSync
    ensures m.Valid() && !m.autoSync && m.live == map[x := ReportedWrite(x, t, rows)]
  {
    x := m.Begin();
    m.SetAutoSync(false);
    m.Write(x, t, rows, Fires);
    WriteReported(x, t, rows);
  }

  method CommitUnseen(m: CdcManager, x: TxnId, t: Table, rows: ZSet<Row>)
    requires m.Valid() && !m.autoSync && m.live == map[x := ReportedWrite(x, t, rows)]
    requires m.committed == map[] && m.tables == map[t := TRUSTED]
    modifies m
    ensures m.Valid() && m.autoSync && m.live == map[] && m.tables == map[t := TRUSTED]
    ensures m.committed == map[t := Plus(map[], Plus(map[], rows))]
  {
    WriteReported(x, t, rows);
    ghost var mid, c := AtHook(m.Snapshot(), x), m.live[x].capture;
    OffSettlesNothing(mid, c, m.triggersActive, t);
    m.Commit(x);
    assert m.tables[t] == HookResult(mid, c, false, m.triggersActive, t);
    m.SetAutoSync(true);
  }

  // The table stays trusted and wrong, also when auto-sync is on again.
  method AutoSyncOffLosesTheDelta(t: Table, rows: ZSet<Row>) returns (m: CdcManager)
    requires Normal(rows) && rows != map[]
    ensures fresh(m) && m.Valid() && m.autoSync && m.live == map[]
    ensures t in m.tables && m.tables[t].baseline.Seeded?
    ensures m.tables[t].content == map[] && Stored(m.committed, t) == rows
  {
    m := TrustedTable(t);
    var x := WriteUnseen(m, t, rows);
    CommitUnseen(m, x, t, rows);
    Extensional(Plus(map[], rows), rows);
    Extensional(Plus(map[], Plus(map[], rows)), rows);
  }
}
