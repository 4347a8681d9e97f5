/** The lifecycle of a trace over its two databases (`storage/mod.rs`): `index.sqlite` holds one row
    per trace, each trace has its own file. Every method commits the per-trace file first and the
    index second; a commit that fails is a fault given to the method. */
module TraceStorage {
  import opened Wire
  import opened CallTree
  import opened TraceTables
  import opened Aggregate
  import opened SelfTime
  import opened Ledger

  /** The opaque identity of a trace. */
  datatype TraceKey = TraceKey(digest: string)

  datatype Fault = NoFault | TraceCommitFails | IndexCommitFails | RawRemovalFails

  datatype FinalizeOutcome = FinalizeOutcome(pendingDq1: nat, pendingDq2: nat, cpuAvailable: bool, rawBytesFreed: nat)

  /** What a trace has been through: the calls its tables still account for, the wall of the calls
      finalize dropped, what its index row lacks, and whether the last commit to its file was followed by
      a lost one to the index. */
  datatype Accounts = Accounts(delivered: map<nat, Call>, droppedWall: nat, behind: Behind, stale: bool)

  const FRESH_FILE := TraceFile(NoMeta, EMPTY)
  const FRESH_ACCOUNTS := Accounts(map[], 0, IN_FULL, false)

  /** The index row, if any, and the file of one trace are as far apart as the accounts say. */
  ghost predicate SlotOk(hasRow: bool, row: IndexRow, f: TraceFile, a: Accounts) {
    && Consistent(f.tables, a.delivered)
    && Balanced(if hasRow then row else NO_ROW, f.tables, a.delivered, a.droppedWall, a.behind)
    && (hasRow && !a.stale ==> InStep(row, f))
  }

  ghost predicate NotAhead(b: Behind) {
    b.calls >= 0 && b.wall >= 0 && b.anomalies >= 0
  }

  /** The tables a batch is aggregated into: new dictionary entries first, then the root. */
  function Prepared(t: Tables, batch: Batch): Tables {
    Seed(t.(dict := AddEntries(t.dict, batch.dict)))
  }

  /** After the per-trace commit of a recorded batch: the index row either takes the deltas or falls behind
      by exactly them. */
  lemma RecordKeepsSlot(hasRow: bool, row: IndexRow, f: TraceFile, a: Accounts, batch: Batch, now: int, t: Tables,
                        d: map<nat, Call>, o: Outcome)
    requires SlotOk(hasRow, row, f, a) && Settled(t, d)
    requires t.dict == Prepared(f.tables, batch).dict
    requires Reported(Prepared(f.tables, batch), a.delivered, t, d, |batch.calls|, o)
    ensures var f' := TraceFile(Meta(Active, batch.droppedRecords, true), t);
            && SlotOk(hasRow, row, f', RecordedAccounts(a, d, o, false))
            && SlotOk(true, Upserted(hasRow, row, now, batch.droppedRecords, o), f', RecordedAccounts(a, d, o, true))
  {
    hide Settled, Inv, Total, Verdicts, Justified, Partitioned;
    assert Seed(f.tables.(dict := t.dict)) == Prepared(f.tables, batch) by { SeedTwice(f.tables, batch); }
    RecordJustified(f.tables, a.delivered, t, d, |batch.calls|, o);
  }

  function RecordedAccounts(a: Accounts, d: map<nat, Call>, o: Outcome, indexed: bool): Accounts {
    Accounts(d, a.droppedWall, AfterRecord(a.behind, o, indexed), !indexed)
  }

  lemma SeedTwice(t: Tables, batch: Batch)
    ensures Seed(t.(dict := Prepared(t, batch).dict)) == Prepared(t, batch)
  {
  }

  lemma NothingJustified()
    ensures Justified(EMPTY) == 0 && Total(map[]) == ZERO
  {
  }

  // ---- finalize ----

  /** The file after finalize's per-trace commit. */
  function ClosedFile(f: TraceFile, rows: seq<Anomaly>, cpu: bool): TraceFile {
    TraceFile(if f.meta.Meta? then Meta(Finalized, f.meta.droppedRecords, cpu) else NoMeta,
              f.tables.(pending := map[], anomalies := f.tables.anomalies + rows))
  }

  /** The index row after finalize's index commit. */
  function ClosedRow(row: IndexRow, f: TraceFile, cpu: bool): IndexRow {
    row.(state := Finalized, anomalyCount := |f.tables.anomalies|, cpuAvailable := cpu, pendingCount := 0)
  }

  /** `reached` says whether the index row took the finalize. */
  ghost function ClosedAccounts(f: TraceFile, a: Accounts, verdicts: nat, reached: bool, lost: bool): Accounts {
    var folded := FoldedOnly(f.tables, a.delivered);
    var wall := a.droppedWall + Total(a.delivered).wall - Total(folded).wall;
    Accounts(folded, if wall >= 0 then wall else 0, AfterFinalize(a.behind, verdicts, reached), lost)
  }

  lemma CloseTables(t: Tables, d: map<nat, Call>, rows: seq<Anomaly>)
    requires Consistent(t, d) && VerdictsOn(t, rows)
    ensures Consistent(t.(pending := map[], anomalies := t.anomalies + rows), FoldedOnly(t, d))
    ensures Total(d).wall >= Total(FoldedOnly(t, d)).wall
    ensures Justified(t.(pending := map[], anomalies := t.anomalies + rows)) == Justified(t)
    ensures |rows| == |t.pending|
  {
    hide Inv, Total, Verdicts, Justified;
    VerdictCount(t, rows);
    if Settled(t, d) {
      DropJustified(t, d, rows);
      DropKeepsInv(t, d, rows);
    } else {
      assert rows == [];
      assert FoldedOnly(t, d) == map[];
    }
  }

  /** The columns a finalize does not touch stay balanced: calls move from parked to verdicts, their walls
      from delivered to dropped. */
  lemma FinalizeBalances(row: IndexRow, f: TraceFile, a: Accounts, rows: seq<Anomaly>, cpu: bool, reached: bool,
                         lost: bool)
    requires Consistent(f.tables, a.delivered) && VerdictsOn(f.tables, rows)
    requires Balanced(row, f.tables, a.delivered, a.droppedWall, a.behind)
    ensures var f', a' := ClosedFile(f, rows, cpu), ClosedAccounts(f, a, |rows|, reached, lost);
            && Consistent(f'.tables, a'.delivered)
            && row.callCount + a'.behind.calls == Justified(f'.tables)
            && row.totalWall + a'.behind.wall == Total(a'.delivered).wall + a'.droppedWall
            && |f'.tables.anomalies| == |f.tables.anomalies| + |rows| && f'.tables.pending == map[]
  {
    hide Total, Verdicts, Justified, FoldedOnly, VerdictsOn, Consistent;
    CloseTables(f.tables, a.delivered, rows);
  }

  /** The index commit of a finalize was lost, or there is no row: the row lacks the verdicts. */
  lemma FinalizeMissesSlot(hasRow: bool, row: IndexRow, f: TraceFile, a: Accounts, rows: seq<Anomaly>, cpu: bool,
                           lost: bool)
    requires SlotOk(hasRow, row, f, a) && VerdictsOn(f.tables, rows) && (hasRow ==> lost)
    ensures SlotOk(hasRow, row, ClosedFile(f, rows, cpu), ClosedAccounts(f, a, |rows|, false, lost))
  {
    hide Total, FoldedOnly, VerdictsOn, Consistent, Justified, ClosedFile;
    FinalizeBalances(if hasRow then row else NO_ROW, f, a, rows, cpu, false, lost);
  }

  lemma FinalizeKeepsSlot(row: IndexRow, f: TraceFile, a: Accounts, rows: seq<Anomaly>, cpu: bool)
    requires SlotOk(true, row, f, a) && VerdictsOn(f.tables, rows)
    ensures SlotOk(true, ClosedRow(row, ClosedFile(f, rows, cpu), cpu), ClosedFile(f, rows, cpu),
                   ClosedAccounts(f, a, |rows|, true, false))
  {
    hide Total, FoldedOnly, VerdictsOn, Consistent, Justified;
    FinalizeBalances(row, f, a, rows, cpu, true, false);
  }

  lemma NothingFolded()
    ensures FoldedOnly(EMPTY, map[]) == map[]
  {
  }

  /** One verdict per parked row, then the bulk delete. */
  method DropResiduals(db: TraceDb) returns (dq1: nat, dq2: nat, ghost rows: seq<Anomaly>)
    requires forall id :: id in db.pending ==> db.pending[id].callId == id
    modifies db`pending, db`anomalies
    ensures VerdictsOn(old(db.State()), rows)
    ensures db.State() == old(db.State()).(pending := map[], anomalies := old(db.anomalies) + rows)
    ensures dq1 + dq2 == |rows|
    ensures dq1 == |UnknownAmong(old(db.State()), old(db.pending).Keys)|
  {
    hide VerdictsFor, UnknownAmong, VerdictsOn, Verdict;
    ghost var t, done: set<nat> := db.State(), {};
    var known := db.dict.Keys;
    var todo := db.pending.Keys;
    dq1, dq2, rows := 0, 0, [];
    assert VerdictsFor(t, rows, done) && |UnknownAmong(t, done)| == 0 by { NoVerdictsYet(t); }
    while todo != {}
      invariant todo + done == t.pending.Keys && todo !! done
      invariant db.anomalies == t.anomalies + rows && db.pending == t.pending
      invariant VerdictsFor(t, rows, done)
      invariant dq1 + dq2 == |rows| && dq1 == |UnknownAmong(t, done)|
      decreases todo
    {
      var id :| id in todo;
      var row := db.pending[id];
      VerdictsForAppend(t, rows, done, id);
      UnknownAmongInsert(t, done, id);
      if row.fnId in known {
        db.anomalies := db.anomalies + [PendingParentAtFinalize(row.callId, row.parent)];
        dq2 := dq2 + 1;
      } else {
        db.anomalies := db.anomalies + [UnresolvedFn(row.callId, row.fnId)];
        dq1 := dq1 + 1;
      }
      assert db.anomalies == t.anomalies + rows + [Verdict(t, row)] by { VerdictIs(t, row); }
      Reassociate(t.anomalies, rows, [Verdict(t, row)]);
      rows := rows + [Verdict(t, row)];
      todo, done := todo - {id}, done + {id};
    }
    assert done == t.pending.Keys;
    assert VerdictsOn(t, rows) by { VerdictsComplete(t, rows); }
    db.pending := map[];
  }

  lemma VerdictIs(t: Tables, r: PendingRow)
    ensures r.fnId in t.dict ==> Verdict(t, r) == PendingParentAtFinalize(r.callId, r.parent)
    ensures r.fnId !in t.dict ==> Verdict(t, r) == UnresolvedFn(r.callId, r.fnId)
  {
  }

  lemma Reassociate(a: seq<Anomaly>, b: seq<Anomaly>, c: seq<Anomaly>)
    ensures a + b + c == a + (b + c)
  {
  }

  lemma VerdictsComplete(t: Tables, rows: seq<Anomaly>)
    requires VerdictsFor(t, rows, t.pending.Keys)
    ensures VerdictsOn(t, rows)
  {
  }

  lemma NoVerdictsYet(t: Tables)
    ensures VerdictsFor(t, [], {}) && UnknownAmong(t, {}) == {}
  {
  }

  /** `compute_cpu_snapshot_available`: whether the non-root rows consumed any CPU time. */
  method CpuSnapshotAvailable(db: TraceDb) returns (available: bool)
    ensures available <==>
            RowTotals(db.nodes, db.nodes.Keys - {ROOT}).cpuU + RowTotals(db.nodes, db.nodes.Keys - {ROOT}).cpuS > 0
  {
    var todo := db.nodes.Keys - {ROOT};
    ghost var all := todo;
    var cpuU, cpuS := 0, 0;
    while todo != {}
      invariant todo <= all <= db.nodes.Keys
      invariant cpuU + RowTotals(db.nodes, todo).cpuU == RowTotals(db.nodes, all).cpuU
      invariant cpuS + RowTotals(db.nodes, todo).cpuS == RowTotals(db.nodes, all).cpuS
      decreases todo
    {
      var n :| n in todo;
      RowTotalsRemove(db.nodes, todo, n);
      cpuU, cpuS := cpuU + db.nodes[n].totals.cpuU, cpuS + db.nodes[n].totals.cpuS;
      todo := todo - {n};
    }
    available := cpuU + cpuS > 0;
  }

  // ---- the two databases together ----

  /** The durable state: index rows, per-trace files, sizes of the raw batch directories. `ledger`
      and `orphaned` are bookkeeping: a trace is orphaned while its index row outlives its files. */
  datatype Disk = Disk(
    index: map<TraceKey, IndexRow>, files: map<TraceKey, TraceFile>, raw: map<TraceKey, nat>,
    ledger: map<TraceKey, Accounts>, orphaned: set<TraceKey>)

  function RowAtKey(s: Disk, k: TraceKey): IndexRow {
    if k in s.index then s.index[k] else NO_ROW
  }

  function FileAtKey(s: Disk, k: TraceKey): TraceFile {
    if k in s.files then s.files[k] else FRESH_FILE
  }

  function AccountsAtKey(s: Disk, k: TraceKey): Accounts {
    if k in s.ledger then s.ledger[k] else FRESH_ACCOUNTS
  }

  ghost predicate KeyOk(s: Disk, k: TraceKey) {
    && (k in s.files ==> k in s.ledger)
    && SlotOk(k in s.index, RowAtKey(s, k), FileAtKey(s, k), AccountsAtKey(s, k))
    && (k !in s.orphaned ==> Kept(k in s.index, FileAtKey(s, k), AccountsAtKey(s, k)))
  }

  /** A trace whose files were never removed from under its row: the row is not ahead of the file. */
  ghost predicate Kept(hasRow: bool, f: TraceFile, a: Accounts) {
    NotAhead(a.behind) && (hasRow ==> f.meta.Meta?)
  }

  ghost predicate DiskOk(s: Disk) {
    forall k :: KeyOk(s, k)
  }

  /** The per-trace file of `k`, and its bookkeeping, replaced; everything else as it was. */
  ghost function Put(s: Disk, k: TraceKey, f: TraceFile, a: Accounts): Disk {
    s.(files := s.files[k := f], ledger := s.ledger[k := a])
  }

  ghost function PutRow(s: Disk, k: TraceKey, row: IndexRow): Disk {
    s.(index := s.index[k := row])
  }

  /** The file of `k` opened: created if it was not there. */
  ghost function Opened(s: Disk, k: TraceKey): Disk {
    Put(s, k, FileAtKey(s, k), AccountsAtKey(s, k))
  }

  lemma PutKeepsOk(s: Disk, key: TraceKey, f: TraceFile, a: Accounts)
    requires DiskOk(s) && SlotOk(key in s.index, RowAtKey(s, key), f, a)
    requires key !in s.orphaned ==> Kept(key in s.index, f, a)
    ensures DiskOk(Put(s, key, f, a))
  {
    hide SlotOk, Kept;
    forall k
      ensures KeyOk(Put(s, key, f, a), k)
    {
      assert KeyOk(s, k);
    }
  }

  lemma PutRowKeepsOk(s: Disk, key: TraceKey, f: TraceFile, a: Accounts, row: IndexRow)
    requires DiskOk(s) && SlotOk(true, row, f, a)
    requires key !in s.orphaned ==> Kept(true, f, a)
    ensures DiskOk(PutRow(Put(s, key, f, a), key, row))
  {
    hide SlotOk, Kept;
    forall k
      ensures KeyOk(PutRow(Put(s, key, f, a), key, row), k)
    {
      assert KeyOk(s, k);
    }
  }

  lemma OpenedKeepsOk(s: Disk, key: TraceKey)
    requires DiskOk(s)
    ensures DiskOk(Opened(s, key))
  {
    hide SlotOk, Kept;
    assert KeyOk(s, key);
    PutKeepsOk(s, key, FileAtKey(s, key), AccountsAtKey(s, key));
  }

  lemma PutTwice(s: Disk, k: TraceKey, f: TraceFile, a: Accounts)
    ensures Put(Opened(s, k), k, f, a) == Put(s, k, f, a)
  {
    assert s.files[k := FileAtKey(s, k)][k := f] == s.files[k := f];
    assert s.ledger[k := AccountsAtKey(s, k)][k := a] == s.ledger[k := a];
  }

  /** Which calls of the batch were folded and parked on arrival, when it parked nothing, and where the depths of its
      new rows come from. */
  ghost predicate Traced(t0: Tables, t: Tables, d: map<nat, Call>, calls: seq<Call>, o: Outcome) {
    && (o.pendingAdded == 0 <==> InOrder(t0, calls, 0))
    && exists mid, depths ::
         && DepthsTraced(t0, mid, t, d, depths) && Arrived(t0, calls, mid, o)
         && (o.pendingAdded == 0 ==> mid.pending == t0.pending)
  }

  lemma TracedIntro(t0: Tables, mid: Tables, t: Tables, d: map<nat, Call>, calls: seq<Call>, o: Outcome,
                    depths: map<nat, nat>)
    requires o.pendingAdded == 0 <==> InOrder(t0, calls, 0)
    requires DepthsTraced(t0, mid, t, d, depths) && Arrived(t0, calls, mid, o)
    requires o.pendingAdded == 0 ==> mid.pending == t0.pending
    ensures Traced(t0, t, d, calls, o)
  {
    hide DepthsTraced, InOrder, Arrived;
  }

  /** What the per-trace commit of a recorded batch did to the file. */
  ghost predicate RecordedFile(f: TraceFile, a: Accounts, f': TraceFile, a': Accounts, batch: Batch, o: Outcome) {
    && f'.meta == Meta(Active, batch.droppedRecords, true)
    && Settled(f'.tables, a'.delivered) && a'.delivered == Deliver(a.delivered, batch.calls)
    && f'.tables.dict == Prepared(f.tables, batch).dict && a'.droppedWall == a.droppedWall
    && Reported(Prepared(f.tables, batch), a.delivered, f'.tables, a'.delivered, |batch.calls|, o)
    && Traced(Prepared(f.tables, batch), f'.tables, a'.delivered, batch.calls, o)
  }

  /** What the per-trace commit of a finalize did to the file: one verdict per parked call, nothing
      else; the calls that folded are all that is still known; CPU data is available if and only if
      the folded calls used any. */
  ghost predicate FinalizedFile(f: TraceFile, a: Accounts, f': TraceFile, a': Accounts, reached: bool,
                                o: FinalizeOutcome) {
    exists rows ::
      && VerdictsOn(f.tables, rows) && f' == ClosedFile(f, rows, o.cpuAvailable)
      && a'.delivered == FoldedOnly(f.tables, a.delivered)
      && a'.droppedWall == a.droppedWall + Total(a.delivered).wall - Total(a'.delivered).wall
      && a'.behind == AfterFinalize(a.behind, |rows|, reached)
      && o.pendingDq1 + o.pendingDq2 == |rows| == |f.tables.pending|
      && o.pendingDq1 == |UnknownAmong(f.tables, f.tables.pending.Keys)|
      && (o.cpuAvailable <==> Total(a'.delivered).cpuU + Total(a'.delivered).cpuS > 0)
  }

  class Storage {
    var index: map<TraceKey, IndexRow>
    var files: map<TraceKey, TraceFile>
    var raw: map<TraceKey, nat>
    var conns: set<TraceKey>
    ghost var ledger: map<TraceKey, Accounts>
    ghost var orphaned: set<TraceKey>

    ghost function OnDisk(): Disk
      reads this
    {
      Disk(index, files, raw, ledger, orphaned)
    }

    lemma DiskFields()
      ensures OnDisk() == Disk(index, files, raw, ledger, orphaned)
    {
    }

    ghost predicate Valid()
      reads this
    {
      DiskOk(OnDisk()) && conns <= files.Keys
    }

    constructor Open()
      ensures Valid() && OnDisk() == Disk(map[], map[], map[], map[], {}) && conns == {}
    {
      index, files, raw, conns, ledger, orphaned := map[], map[], map[], {}, map[], {};
      new;
      NothingOnDisk();
    }

    /** Open, creating the file with its schema on first contact. */
    method EnsureTraceConn(key: TraceKey)
      requires Valid()
      modifies this`files, this`conns, this`ledger
      ensures Valid() && conns == old(conns) + {key} && OnDisk() == Opened(old(OnDisk()), key)
    {
      hide SlotOk, Consistent;
      ghost var s := OnDisk();
      OpenedKeepsOk(s, key);
      assert KeyOk(s, key);
      if key !in conns {
        if key !in files {
          files := files[key := FRESH_FILE];
          ledger := ledger[key := AccountsAtKey(s, key)];
        }
        conns := conns + {key};
      }
      assert files == s.files[key := FileAtKey(s, key)];
      assert ledger == s.ledger[key := AccountsAtKey(s, key)];
    }

    /** Recording's per-trace transaction, up to its commit: the tables it would write. */
    method AggregateBatch(key: TraceKey, batch: Batch) returns (t: Tables, outcome: Outcome, ghost d: map<nat, Call>)
      requires Valid()
      requires forall i :: 0 <= i < |batch.calls| ==> batch.calls[i].callId >= 1
      modifies this`files, this`conns, this`ledger
      ensures Valid() && OnDisk() == Opened(old(OnDisk()), key) && conns == old(conns) + {key}
      ensures Aggregates(old(FileAtKey(OnDisk(), key)), old(AccountsAtKey(OnDisk(), key)), batch, t, d, outcome)
    {
      hide SlotOk, Consistent, Settled, Inv, Reported, Quiescent, DiskOk, KeyOk, Opened, Seed, AddEntries, FileAtKey,
           AccountsAtKey, Deliver, DepthsTraced, InOrder, Traced, Arrived;
      ghost var s := OnDisk();
      ghost var f, a := FileAtKey(s, key), AccountsAtKey(s, key);
      EnsureTraceConn(key);
      OpenedFile(s, key);
      var db := new TraceDb.Begin(files[key].tables, ledger[key].delivered);
      SeedEstablishesInv(f.tables, a.delivered, batch.dict);
      db.InsertDict(batch.dict);
      db.SeedSyntheticRoot();
      assert db.State() == Prepared(f.tables, batch);
      ghost var mid, depths;
      outcome, mid, depths := db.AggregateCalls(batch);
      t := db.Contents();
      d := db.delivered;
      TracedIntro(Prepared(f.tables, batch), mid, t, d, batch.calls, outcome, depths);
    }

    /** Record a decoded batch: per-trace transaction, then the index upsert. */
    method RecordBatch(key: TraceKey, batch: Batch, now: int, fault: Fault) returns (ok: bool, outcome: Outcome)
      requires Valid()
      requires forall i :: 0 <= i < |batch.calls| ==> batch.calls[i].callId >= 1
      modifies this
      ensures Valid() && conns == old(conns) + {key}
      ensures ok <==> fault != TraceCommitFails && fault != IndexCommitFails
      ensures fault == TraceCommitFails ==> OnDisk() == Opened(old(OnDisk()), key)
      ensures fault != TraceCommitFails ==> RecordedTo(old(OnDisk()), OnDisk(), key, batch, now, outcome, ok)
    {
      hide SlotOk, Consistent, DiskOk, KeyOk, RecordedTo, Opened, Upserted, FileAtKey, AccountsAtKey, Aggregates;
      ghost var s := OnDisk();
      OpenedFile(s, key);
      var t;
      ghost var d;
      t, outcome, d := AggregateBatch(key, batch);
      if fault == TraceCommitFails {
        return false, outcome;
      }
      ok := fault != IndexCommitFails;
      files := files[key := TraceFile(Meta(Active, batch.droppedRecords, true), t)];
      ledger := ledger[key := RecordedAccounts(AccountsAtKey(s, key), d, outcome, ok)];
      if ok {
        index := index[key := Upserted(key in index, if key in index then index[key]
          else NO_ROW, now, batch.droppedRecords, outcome)];
      }
      RecordCommits(s, OnDisk(), key, batch, now, t, d, outcome, ok);
    }

    /** Finalize's per-trace transaction: the verdicts, the CPU flag and the state flip. */
    method CloseTraceFile(key: TraceKey, commits: bool, ghost reached: bool, ghost lost: bool)
      returns (dq1: nat, dq2: nat, cpu: bool, count: nat, ghost rows: seq<Anomaly>)
      requires Valid()
      modifies this`files, this`conns, this`ledger
      ensures conns == old(conns) + {key} && conns <= files.Keys
      ensures !commits ==> DiskOk(OnDisk()) && OnDisk() == Opened(old(OnDisk()), key)
      ensures Closes(old(FileAtKey(OnDisk(), key)), old(AccountsAtKey(OnDisk(), key)), rows, dq1, dq2, cpu)
      ensures var s := old(OnDisk());
              var a' := ClosedAccounts(FileAtKey(s, key), AccountsAtKey(s, key), |rows|, reached, lost);
              && files == (if commits then Opened(s, key).files[key := ClosedFile(FileAtKey(s, key), rows, cpu)]
                else Opened(s, key).files)
              && ledger == (if commits then Opened(s, key).ledger[key := a'] else Opened(s, key).ledger)
      ensures count == |old(FileAtKey(OnDisk(), key)).tables.anomalies| + |rows|
    {
      hide SlotOk, Consistent, DiskOk, KeyOk, Opened, FileAtKey, AccountsAtKey, VerdictsOn, FoldedOnly, Total,
           UnknownAmong, RowTotals, Closes, ClosedAccounts;
      ghost var s := OnDisk();
      ghost var f, a := FileAtKey(s, key), AccountsAtKey(s, key);
      EnsureTraceConn(key);
      OpenedFile(s, key);
      ConsistentIsKeyed(f.tables, a.delivered);
      CpuOfFolded(f.tables, a.delivered);
      var db := new TraceDb.Begin(files[key].tables, ledger[key].delivered);
      dq1, dq2, rows := DropResiduals(db);
      cpu := CpuSnapshotAvailable(db);
      count := |db.anomalies|;
      assert Closes(f, a, rows, dq1, dq2, cpu) by { ClosesIntro(f, a, rows, dq1, dq2, cpu); }
      if commits {
        var t := db.Contents();
        var meta := if files[key].meta.Meta? then Meta(Finalized, files[key].meta.droppedRecords, cpu) else NoMeta;
        files := files[key := TraceFile(meta, t)];
        ledger := ledger[key := ClosedAccounts(f, a, |rows|, reached, lost)];
      }
    }

    /** Close a trace: verdicts on everything still parked, then the index row, then, for a clean
        finalize, the raw directory. */
    method FinalizeTrace(key: TraceKey, force: bool, fault: Fault) returns (ok: bool, outcome: FinalizeOutcome)
      requires Valid()
      modifies this
      ensures Valid()
      ensures ok <==> fault == NoFault || (fault == RawRemovalFails && force)
      ensures fault == TraceCommitFails ==> OnDisk() == Opened(old(OnDisk()), key)
      ensures fault != TraceCommitFails ==> FinalizedTo(old(OnDisk()), OnDisk(), key, force, fault, outcome)
      ensures conns ==
        if fault == TraceCommitFails || fault == IndexCommitFails then old(conns) + {key} else old(conns) - {key}
    {
      hide SlotOk, Consistent, DiskOk, KeyOk, FinalizedTo, Opened, FileAtKey, AccountsAtKey, Closes, ClosedAccounts,
           ClosedFile, ClosedRow, OnDisk;
      ghost var s := OnDisk();
      ghost var f, a := FileAtKey(s, key), AccountsAtKey(s, key);
      OpenedFile(s, key);
      DiskFields();
      ghost var rows;
      var dq1, dq2, cpu, count;
      dq1, dq2, cpu, count, rows := CloseTraceFile(key, fault != TraceCommitFails, Reaches(s, key, fault),
        fault == IndexCommitFails);
      outcome := FinalizeOutcome(dq1, dq2, cpu, 0);
      if fault == TraceCommitFails {
        return false, outcome;
      }
      if fault == IndexCommitFails {
        DiskFields();
        FinalizeCommits(s, OnDisk(), key, force, fault, rows, outcome);
        return false, outcome;
      }
      ClosedTables(f, rows, cpu);
      CloseIndexRow(key, cpu, count, ClosedFile(f, rows, cpu));
      conns := conns - {key};
      if RemovesRaw(force, fault) {
        outcome := outcome.(rawBytesFreed := if key in raw then raw[key] else 0);
        raw := raw - {key};
      }
      ok := fault == NoFault || force;
      DiskFields();
      FinalizeCommits(s, OnDisk(), key, force, fault, rows, outcome);
    }

    /** Finalize's index commit. */
    method CloseIndexRow(key: TraceKey, cpu: bool, count: nat, ghost f: TraceFile)
      requires count == |f.tables.anomalies|
      modifies this`index
      ensures index == if key in old(index) then old(index)[key := ClosedRow(old(index)[key], f, cpu)] else old(index)
    {
      if key in index {
        index := index[key := index[key].(state := Finalized, anomalyCount := count, cpuAvailable := cpu,
          pendingCount := 0)];
      }
    }

    /** Prune a trace: connection and files first, the index row last, so that a lost index commit
        leaves the row visible for a retry. */
    method DeleteTrace(key: TraceKey, fault: Fault) returns (ok: bool)
      requires Valid()
      modifies this
      ensures Valid() && OnDisk() == Deleted(old(OnDisk()), key, ok) && conns == old(conns) - {key}
      ensures ok <==> fault != IndexCommitFails
    {
      ghost var s := OnDisk();
      conns := conns - {key};
      files, raw := files - {key}, raw - {key};
      ok := fault != IndexCommitFails;
      if ok {
        index := index - {key};
      }
      ledger := if key in index then ledger[key := OrphanAccounts(index[key])] else ledger - {key};
      orphaned := if key in index then orphaned + {key} else orphaned - {key};
      DeleteKeepsOk(s, key, ok);
    }
  }

  /** Whether a finalize's UPDATE changes an index row and is committed. */
  predicate Reaches(s: Disk, key: TraceKey, fault: Fault) {
    key in s.index && fault != IndexCommitFails
  }

  /** Whether a finalize reaches, and survives, the removal of the raw directory. */
  predicate RemovesRaw(force: bool, fault: Fault) {
    !force && fault == NoFault
  }

  /** `s'` is `s` with the trace of `key` finalized in its file, in its index row unless that commit
      was lost, and with its raw directory gone after a clean success. */
  ghost predicate FinalizedTo(s: Disk, s': Disk, key: TraceKey, force: bool, fault: Fault, o: FinalizeOutcome) {
    var f', a' := FileAtKey(s', key), AccountsAtKey(s', key);
    var closed := Put(s, key, f', a');
    var indexed := if !Reaches(s, key, fault) then closed
                   else PutRow(closed, key, ClosedRow(s.index[key], f', o.cpuAvailable));
    && FinalizedFile(FileAtKey(s, key), AccountsAtKey(s, key), f', a', Reaches(s, key, fault), o)
    && a'.stale == (fault == IndexCommitFails)
    && s' == indexed.(raw := if RemovesRaw(force, fault) then s.raw - {key} else s.raw)
    && o.rawBytesFreed == if RemovesRaw(force, fault) && key in s.raw then s.raw[key] else 0
  }

  lemma CpuOfFolded(t: Tables, d: map<nat, Call>)
    requires Consistent(t, d)
    ensures RowTotals(t.nodes, t.nodes.Keys - {ROOT}) == Total(FoldedOnly(t, d))
  {
    hide Inv;
    if Settled(t, d) {
      TreeConserves(t, d);
    } else {
      NothingFolded();
    }
  }

  lemma ConsistentIsKeyed(t: Tables, d: map<nat, Call>)
    requires Consistent(t, d)
    ensures forall id :: id in t.pending ==> t.pending[id].callId == id
  {
    hide Inv;
    if Settled(t, d) {
      RowsAreKeyed(t, d);
    }
  }

  /** What finalize's per-trace transaction computes from the file it opened. */
  ghost predicate Closes(f: TraceFile, a: Accounts, rows: seq<Anomaly>, dq1: nat, dq2: nat, cpu: bool) {
    && Consistent(f.tables, a.delivered) && VerdictsOn(f.tables, rows)
    && dq1 + dq2 == |rows| && dq1 == |UnknownAmong(f.tables, f.tables.pending.Keys)|
    && (cpu <==> Total(FoldedOnly(f.tables, a.delivered)).cpuU + Total(FoldedOnly(f.tables, a.delivered)).cpuS > 0)
  }

  lemma ClosesIntro(f: TraceFile, a: Accounts, rows: seq<Anomaly>, dq1: nat, dq2: nat, cpu: bool)
    requires Consistent(f.tables, a.delivered) && VerdictsOn(f.tables, rows)
    requires dq1 + dq2 == |rows| && dq1 == |UnknownAmong(f.tables, f.tables.pending.Keys)|
    requires cpu <==> Total(FoldedOnly(f.tables, a.delivered)).cpuU + Total(FoldedOnly(f.tables, a.delivered)).cpuS > 0
    ensures Closes(f, a, rows, dq1, dq2, cpu)
  {
  }

  /** The files and rows a finalize leaves, spelled out. */
  ghost predicate Finalizes(s: Disk, s': Disk, key: TraceKey, force: bool, fault: Fault, rows: seq<Anomaly>,
                            o: FinalizeOutcome) {
    var f, a := FileAtKey(s, key), AccountsAtKey(s, key);
    var f' := ClosedFile(f, rows, o.cpuAvailable);
    && Closes(f, a, rows, o.pendingDq1, o.pendingDq2, o.cpuAvailable)
    && o.rawBytesFreed == (if RemovesRaw(force, fault) && key in s.raw then s.raw[key] else 0)
    && s' == Disk(if Reaches(s, key, fault) then s.index[key := ClosedRow(s.index[key], f', o.cpuAvailable)]
      else s.index,
                  Opened(s, key).files[key := f'],
                  if RemovesRaw(force, fault) then s.raw - {key} else s.raw,
                  Opened(s, key).ledger[key := FinalAccounts(s, key, rows, fault)],
                  s.orphaned)
  }

  ghost function FinalAccounts(s: Disk, key: TraceKey, rows: seq<Anomaly>, fault: Fault): Accounts {
    ClosedAccounts(FileAtKey(s, key), AccountsAtKey(s, key), |rows|, Reaches(s, key, fault), fault == IndexCommitFails)
  }

  lemma ClosesIsFinalizedFile(f: TraceFile, a: Accounts, rows: seq<Anomaly>, reached: bool, lost: bool,
                              o: FinalizeOutcome)
    requires Closes(f, a, rows, o.pendingDq1, o.pendingDq2, o.cpuAvailable)
    ensures FinalizedFile(f, a, ClosedFile(f, rows, o.cpuAvailable), ClosedAccounts(f, a, |rows|, reached, lost),
      reached, o)
  {
    hide Consistent, VerdictsOn, FoldedOnly, Total, UnknownAmong, ClosedFile, AfterFinalize;
    CloseTables(f.tables, a.delivered, rows);
  }

  lemma FinalizeIsFinalizedTo(s: Disk, s': Disk, key: TraceKey, force: bool, fault: Fault, rows: seq<Anomaly>,
                              o: FinalizeOutcome)
    requires Finalizes(s, s', key, force, fault, rows, o)
    ensures FinalizedTo(s, s', key, force, fault, o)
  {
    hide FinalizedFile, Closes, FoldedOnly, Total, ClosedRow, ClosedFile, AfterFinalize, Reaches, RemovesRaw;
    var f, a := FileAtKey(s, key), AccountsAtKey(s, key);
    var f', a' := ClosedFile(f, rows, o.cpuAvailable), FinalAccounts(s, key, rows, fault);
    PutTwice(s, key, f', a');
    ClosesIsFinalizedFile(f, a, rows, Reaches(s, key, fault), fault == IndexCommitFails, o);
  }

  lemma FinalizeKeepsOk(s: Disk, s': Disk, key: TraceKey, force: bool, fault: Fault, rows: seq<Anomaly>,
                        o: FinalizeOutcome)
    requires DiskOk(s) && Finalizes(s, s', key, force, fault, rows, o)
    ensures DiskOk(s')
  {
    hide SlotOk, Kept, Consistent, DiskOk, VerdictsOn, FoldedOnly, Total, UnknownAmong, ClosedRow, ClosedFile,
         FinalAccounts;
    var f := FileAtKey(s, key);
    var f', a' := ClosedFile(f, rows, o.cpuAvailable), FinalAccounts(s, key, rows, fault);
    PutTwice(s, key, f', a');
    FinalizeSlots(s, key, rows, o.cpuAvailable, fault);
    if Reaches(s, key, fault) {
      var row := ClosedRow(s.index[key], f', o.cpuAvailable);
      PutRowKeepsOk(s, key, f', a', row);
      RawKeepsOk(PutRow(Put(s, key, f', a'), key, row), s'.raw);
    } else {
      PutKeepsOk(s, key, f', a');
      RawKeepsOk(Put(s, key, f', a'), s'.raw);
    }
  }

  lemma FinalizeCommits(s: Disk, s': Disk, key: TraceKey, force: bool, fault: Fault, rows: seq<Anomaly>,
                        o: FinalizeOutcome)
    requires DiskOk(s) && Finalizes(s, s', key, force, fault, rows, o)
    ensures DiskOk(s') && FinalizedTo(s, s', key, force, fault, o)
  {
    hide DiskOk, Finalizes, FinalizedTo;
    FinalizeKeepsOk(s, s', key, force, fault, rows, o);
    FinalizeIsFinalizedTo(s, s', key, force, fault, rows, o);
  }

  lemma ClosedTables(f: TraceFile, rows: seq<Anomaly>, cpu: bool)
    ensures ClosedFile(f, rows, cpu).tables == f.tables.(pending := map[], anomalies := f.tables.anomalies + rows)
  {
  }

  lemma RawKeepsOk(s: Disk, raw: map<TraceKey, nat>)
    requires DiskOk(s)
    ensures DiskOk(s.(raw := raw))
  {
    hide SlotOk, Kept;
    forall k
      ensures KeyOk(s.(raw := raw), k)
    {
      assert KeyOk(s, k);
    }
  }

  lemma FinalizeSlots(s: Disk, key: TraceKey, rows: seq<Anomaly>, cpu: bool, fault: Fault)
    requires DiskOk(s) && VerdictsOn(FileAtKey(s, key).tables, rows)
    ensures var f', a' := ClosedFile(FileAtKey(s, key), rows, cpu), FinalAccounts(s, key, rows, fault);
            && (if Reaches(s, key, fault) then SlotOk(true, ClosedRow(s.index[key], f', cpu), f', a')
                else SlotOk(key in s.index, RowAtKey(s, key), f', a'))
            && (key !in s.orphaned ==> Kept(key in s.index, f', a'))
  {
    hide SlotOk, Kept, DiskOk, VerdictsOn, ClosedFile, ClosedRow, ClosedAccounts;
    var f, a := FileAtKey(s, key), AccountsAtKey(s, key);
    KeySlot(s, key);
    if key !in s.orphaned {
      FinalizeKeepsKept(key in s.index, f, a, rows, cpu, Reaches(s, key, fault), fault == IndexCommitFails);
    }
    if Reaches(s, key, fault) {
      FinalizeKeepsSlot(s.index[key], f, a, rows, cpu);
    } else {
      FinalizeMissesSlot(key in s.index, RowAtKey(s, key), f, a, rows, cpu, fault == IndexCommitFails);
    }
  }

  lemma FinalizeKeepsKept(hasRow: bool, f: TraceFile, a: Accounts, rows: seq<Anomaly>, cpu: bool, reached: bool,
                          lost: bool)
    requires Kept(hasRow, f, a)
    ensures Kept(hasRow, ClosedFile(f, rows, cpu), ClosedAccounts(f, a, |rows|, reached, lost))
  {
    hide Total, FoldedOnly;
  }

  lemma OpenedFile(s: Disk, key: TraceKey)
    requires DiskOk(s)
    ensures key in Opened(s, key).files && key in Opened(s, key).ledger
    ensures Opened(s, key).files[key] == FileAtKey(s, key) && Opened(s, key).ledger[key] == AccountsAtKey(s, key)
    ensures Consistent(FileAtKey(s, key).tables, AccountsAtKey(s, key).delivered)
  {
    hide Kept, Consistent, Balanced, InStep;
    assert KeyOk(s, key);
  }

  /** `s'` is `s` with the batch committed to the file of `key` and, if `indexed`, to its index row. */
  ghost predicate RecordedTo(s: Disk, s': Disk, key: TraceKey, batch: Batch, now: int, o: Outcome, indexed: bool) {
    var f', a' := FileAtKey(s', key), AccountsAtKey(s', key);
    && RecordedFile(FileAtKey(s, key), AccountsAtKey(s, key), f', a', batch, o)
    && a' == RecordedAccounts(AccountsAtKey(s, key), a'.delivered, o, indexed)
    && s' == if indexed then PutRow(Put(s, key, f', a'), key, Upserted(key in s.index, RowAtKey(s, key), now,
      batch.droppedRecords, o))
             else Put(s, key, f', a')
  }

  /** What recording's per-trace transaction makes of the file it opened. */
  ghost predicate Aggregates(f: TraceFile, a: Accounts, batch: Batch, t: Tables, d: map<nat, Call>, o: Outcome) {
    && Settled(t, d) && d == Deliver(a.delivered, batch.calls) && t.dict == Prepared(f.tables, batch).dict
    && Reported(Prepared(f.tables, batch), a.delivered, t, d, |batch.calls|, o)
    && Traced(Prepared(f.tables, batch), t, d, batch.calls, o)
  }

  lemma RecordCommits(s: Disk, s': Disk, key: TraceKey, batch: Batch, now: int, t: Tables, d: map<nat, Call>,
                      o: Outcome, ok: bool)
    requires DiskOk(s)
    requires Aggregates(FileAtKey(s, key), AccountsAtKey(s, key), batch, t, d, o)
    requires var a := AccountsAtKey(s, key);
             && s' == Disk(if ok then s.index[key := Upserted(key in s.index, RowAtKey(s, key), now,
               batch.droppedRecords, o)] else s.index,
                           Opened(s, key).files[key := TraceFile(Meta(Active, batch.droppedRecords, true), t)], s.raw,
                           Opened(s, key).ledger[key := RecordedAccounts(a, d, o, ok)], s.orphaned)
    ensures DiskOk(s') && RecordedTo(s, s', key, batch, now, o, ok)
  {
    hide SlotOk, Kept, Settled, Reported, DiskOk, Deliver, Prepared, AfterRecord, Traced;
    var f, a := FileAtKey(s, key), AccountsAtKey(s, key);
    var f', a' := TraceFile(Meta(Active, batch.droppedRecords, true), t), RecordedAccounts(a, d, o, ok);
    PutTwice(s, key, f', a');
    KeySlot(s, key);
    RecordKeepsSlot(key in s.index, RowAtKey(s, key), f, a, batch, now, t, d, o);
    if key !in s.orphaned {
      RecordKeepsKept(key in s.index, f, a, f', d, o, ok);
    }
    if ok {
      PutRowKeepsOk(s, key, f', a', Upserted(key in s.index, RowAtKey(s, key), now, batch.droppedRecords, o));
    } else {
      PutKeepsOk(s, key, f', a');
    }
  }

  lemma RecordKeepsKept(hasRow: bool, f: TraceFile, a: Accounts, f': TraceFile, d: map<nat, Call>, o: Outcome,
                        indexed: bool)
    requires Kept(hasRow, f, a) && f'.meta.Meta?
    ensures Kept(true, f', RecordedAccounts(a, d, o, indexed)) && Kept(hasRow, f', RecordedAccounts(a, d, o, indexed))
  {
  }

  lemma KeySlot(s: Disk, key: TraceKey)
    requires DiskOk(s)
    ensures SlotOk(key in s.index, RowAtKey(s, key), FileAtKey(s, key), AccountsAtKey(s, key))
    ensures key !in s.orphaned ==> Kept(key in s.index, FileAtKey(s, key), AccountsAtKey(s, key))
  {
    hide SlotOk, Kept;
    assert KeyOk(s, key);
  }

  lemma SettledIsConsistent(t: Tables, d: map<nat, Call>)
    requires Settled(t, d)
    ensures Consistent(t, d)
  {
  }

  /** What is left of a trace whose files are gone but whose row is not: a row ahead by all it says. */
  function OrphanAccounts(row: IndexRow): Accounts {
    Accounts(map[], 0, AheadBy(row.callCount, row.totalWall, row.anomalyCount), true)
  }

  /** Nothing of the trace is left on disk; its index row is gone too unless that commit was lost. */
  ghost function Deleted(s: Disk, key: TraceKey, indexed: bool): Disk {
    var orphan := !indexed && key in s.index;
    Disk(if indexed then s.index - {key} else s.index, s.files - {key}, s.raw - {key},
         if orphan then s.ledger[key := OrphanAccounts(s.index[key])] else s.ledger - {key},
         if orphan then s.orphaned + {key} else s.orphaned - {key})
  }

  lemma OrphanSlot(row: IndexRow)
    ensures SlotOk(true, row, FRESH_FILE, OrphanAccounts(row))
  {
    hide Settled, Justified, Total;
    NothingJustified();
  }

  lemma DeleteKeepsOk(s: Disk, key: TraceKey, indexed: bool)
    requires DiskOk(s)
    ensures DiskOk(Deleted(s, key, indexed))
  {
    hide SlotOk, Kept, OrphanAccounts;
    FreshSlot();
    if key in s.index {
      OrphanSlot(s.index[key]);
    }
    forall k
      ensures KeyOk(Deleted(s, key, indexed), k)
    {
      assert KeyOk(s, k);
    }
  }

  lemma FreshSlot()
    ensures SlotOk(false, NO_ROW, FRESH_FILE, FRESH_ACCOUNTS) && Kept(false, FRESH_FILE, FRESH_ACCOUNTS)
  {
    hide Settled, Justified, Total;
    NothingJustified();
  }

  lemma NothingOnDisk()
    ensures DiskOk(Disk(map[], map[], map[], map[], {}))
  {
    hide SlotOk, Kept;
    FreshSlot();
  }
}
