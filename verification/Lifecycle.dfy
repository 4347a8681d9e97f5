/** What holds of a trace over every run of recordings, finalizes and prunes, with commits lost at
    any point: consequences of the state `TraceStorage.Storage` keeps. */
module Lifecycle {
  import opened Wire
  import opened CallTree
  import opened TraceTables
  import opened Aggregate
  import opened SelfTime
  import opened Ledger
  import opened TraceStorage
  import opened Deliveries

  ghost function ParkedCalls(t: Tables, d: map<nat, Call>): map<nat, Call> {
    map id | id in d && id in t.pending :: d[id]
  }

  lemma ConsistentTotals(t: Tables, d: map<nat, Call>)
    requires Consistent(t, d)
    ensures Total(d).wall == RowTotals(t.nodes, t.nodes.Keys - {ROOT}).wall + Total(ParkedCalls(t, d)).wall
  {
    hide Total, RowTotals, TreeOk, InPlace, Summed, Populated, InvertedOnce, Aligned, DepthsOk, Quiescent;
    CpuOfFolded(t, d);
    assert Splits(d, FoldedOnly(t, d), ParkedCalls(t, d));
    TotalSplit(d, FoldedOnly(t, d), ParkedCalls(t, d));
  }

  /** The balance the storage keeps: every call counted, or lacking from the count, is folded, parked, or
      was turned into a verdict, and every nanosecond sits in a tree row, a parked call, or a call finalize
      dropped. How much is lacking over a run is `RunLedger.Lost`. */
  lemma Conservation(s: Disk, key: TraceKey)
    requires DiskOk(s) && key in s.index
    ensures var f, a, row := FileAtKey(s, key), AccountsAtKey(s, key), s.index[key];
            var t := f.tables;
            && row.callCount + a.behind.calls == |t.callToNode| + |t.pending| + Verdicts(t.anomalies)
            && row.totalWall + a.behind.wall
               == RowTotals(t.nodes, t.nodes.Keys - {ROOT}).wall
                  + Total(ParkedCalls(t, a.delivered)).wall + a.droppedWall
            && row.anomalyCount + a.behind.anomalies == |t.anomalies|
            && (!a.stale ==> row.pendingCount == |t.pending| && (f.meta.Meta? ==> row.state == f.meta.state))
            && (key !in s.orphaned ==> f.meta.Meta?)
  {
    hide Consistent, DiskOk, Total, RowTotals, Verdicts;
    KeySlot(s, key);
    ConsistentTotals(FileAtKey(s, key).tables, AccountsAtKey(s, key).delivered);
  }

  /** With index commits of recordings and finalizes lost at any point, the index is never ahead of the
      per-trace file. A prune is different: see `OrphanedRowIsAhead`. */
  lemma IndexNeverAhead(s: Disk, key: TraceKey)
    requires DiskOk(s) && key in s.index && key !in s.orphaned
    ensures var t, a, row := FileAtKey(s, key).tables, AccountsAtKey(s, key), s.index[key];
            && row.callCount <= |t.callToNode| + |t.pending| + Verdicts(t.anomalies)
            && row.totalWall
               <= RowTotals(t.nodes, t.nodes.Keys - {ROOT}).wall
                  + Total(ParkedCalls(t, a.delivered)).wall + a.droppedWall
            && row.anomalyCount <= |t.anomalies|
  {
    hide Consistent, DiskOk, Total, RowTotals, Verdicts;
    KeySlot(s, key);
    Conservation(s, key);
  }

  /** The row says no more than its file, if there is one, justifies. */
  ghost predicate WithinFile(s: Disk, key: TraceKey) {
    var t, a, row := FileAtKey(s, key).tables, AccountsAtKey(s, key), RowAtKey(s, key);
    row.callCount <= Justified(t) && row.totalWall <= Total(a.delivered).wall + a.droppedWall
      && row.anomalyCount <= |t.anomalies|
  }

  /** A prune whose index commit is lost leaves a row without a file. That row is ahead of what is left
      unless it had counted nothing; recordings and finalizes since then move both sides alike. */
  lemma OrphanedRowIsAhead(s: Disk, key: TraceKey)
    requires DiskOk(s) && key in s.index
    ensures var s', row := Deleted(s, key, false), s.index[key];
            && key in s'.index && s'.index[key] == row
            && (WithinFile(s', key) <==> row.callCount == 0 && row.totalWall == 0 && row.anomalyCount == 0)
  {
    hide Total;
    NothingJustified();
  }

  /** Pruning again, this time with both commits, leaves what one faultless prune would have left. */
  lemma RetriedPruneCatchesUp(s: Disk, key: TraceKey)
    ensures Deleted(Deleted(s, key, false), key, true) == Deleted(s, key, true)
  {
  }

  /** Whatever was lost before, the pending count is exact again after the next recording that
      commits both databases, and the trace is active in both. */
  lemma PendingCountHeals(s: Disk, s': Disk, key: TraceKey, batch: Batch, now: int, o: Outcome)
    requires RecordedTo(s, s', key, batch, now, o, true)
    ensures key in s'.index && s'.index[key].pendingCount == |FileAtKey(s', key).tables.pending|
    ensures s'.index[key].state == Active && FileAtKey(s', key).meta.Meta? && FileAtKey(s', key).meta.state == Active
    ensures s'.index[key].lastBatchAt == now
  {
    hide Settled;
  }

  /** After the next finalize that commits both databases, pending and anomaly counts are exact. */
  lemma AnomalyCountHeals(s: Disk, s': Disk, key: TraceKey, force: bool, fault: Fault, o: FinalizeOutcome)
    requires FinalizedTo(s, s', key, force, fault, o) && fault != IndexCommitFails && key in s.index
    ensures key in s'.index && s'.index[key].state == Finalized
    ensures s'.index[key].pendingCount == |FileAtKey(s', key).tables.pending| == 0
    ensures s'.index[key].anomalyCount == |FileAtKey(s', key).tables.anomalies|
    ensures s'.index[key].callCount == s.index[key].callCount && s'.index[key].totalWall == s.index[key].totalWall
  {
    hide VerdictsFor, FoldedOnly;
  }

  lemma FinalizeLeavesNothingParked(f: TraceFile, a: Accounts, f': TraceFile, a': Accounts, reached: bool,
                                    o: FinalizeOutcome)
    requires FinalizedFile(f, a, f', a', reached, o)
    ensures f'.tables.pending == map[]
  {
    hide VerdictsFor, FoldedOnly;
  }

  lemma NothingParkedNothingWritten(f: TraceFile, a: Accounts, f': TraceFile, a': Accounts, reached: bool,
                                    o: FinalizeOutcome)
    requires FinalizedFile(f, a, f', a', reached, o) && |f.tables.pending| == 0
    ensures o.pendingDq1 == 0 && o.pendingDq2 == 0 && f'.tables == f.tables
  {
    hide VerdictsFor, FoldedOnly, Total, UnknownAmong;
    ghost var rows :| VerdictsOn(f.tables, rows) && f' == ClosedFile(f, rows, o.cpuAvailable)
      && o.pendingDq1 + o.pendingDq2 == |rows| == |f.tables.pending|;
    assert rows == [] && f.tables.pending == map[];
    assert f.tables.anomalies + rows == f.tables.anomalies;
  }

  /** A finalize retried after its index commit was lost writes no further verdict. */
  lemma RetriedFinalizeAddsNothing(s: Disk, s1: Disk, s2: Disk, key: TraceKey, force1: bool, force2: bool, f1: Fault,
    f2: Fault,
                                   o1: FinalizeOutcome, o2: FinalizeOutcome)
    requires FinalizedTo(s, s1, key, force1, f1, o1) && FinalizedTo(s1, s2, key, force2, f2, o2)
    ensures o2.pendingDq1 == 0 && o2.pendingDq2 == 0
    ensures FileAtKey(s2, key).tables == FileAtKey(s1, key).tables
  {
    hide FinalizedFile, Put, PutRow;
    FinalizeLeavesNothingParked(FileAtKey(s, key), AccountsAtKey(s, key), FileAtKey(s1, key), AccountsAtKey(s1, key),
                                Reaches(s, key, f1), o1);
    NothingParkedNothingWritten(FileAtKey(s1, key), AccountsAtKey(s1, key), FileAtKey(s2, key), AccountsAtKey(s2, key),
                                Reaches(s1, key, f2), o2);
  }

  /** A finalize is clean in effect when the index was in step with the file and said "nothing pending". */
  lemma CleanFinalizeWritesNothing(s: Disk, s': Disk, key: TraceKey, fault: Fault, o: FinalizeOutcome)
    requires DiskOk(s) && key in s.index && !AccountsAtKey(s, key).stale
    requires s.index[key].pendingCount == 0 && FinalizedTo(s, s', key, false, fault, o)
    ensures o.pendingDq1 == 0 && o.pendingDq2 == 0
    ensures FileAtKey(s', key).tables == FileAtKey(s, key).tables
  {
    hide FinalizedFile, Put, PutRow, Consistent, DiskOk, Total, Verdicts;
    KeySlot(s, key);
    NothingParkedNothingWritten(FileAtKey(s, key), AccountsAtKey(s, key), FileAtKey(s', key), AccountsAtKey(s', key),
                                Reaches(s, key, fault), o);
  }

  /** Every verdict a finalize writes is true, although finalize never looks at parents: a DQ-2 row's
      call has a known function and a parent that was never folded, which arrived exactly if it was
      parked itself; a DQ-1 row's function is unknown. */
  lemma FinalizeVerdictsAreTrue(s: Disk, s': Disk, key: TraceKey, force: bool, fault: Fault, o: FinalizeOutcome, i: nat)
    requires DiskOk(s) && FinalizedTo(s, s', key, force, fault, o)
    requires |FileAtKey(s, key).tables.anomalies| <= i < |FileAtKey(s', key).tables.anomalies|
    ensures var t, v := FileAtKey(s, key).tables, FileAtKey(s', key).tables.anomalies[i];
            && !v.InvertedTime? && v.callId in t.pending
            && (v.PendingParentAtFinalize? ==>
                  t.pending[v.callId].fnId in t.dict && v.parent == t.pending[v.callId].parent
                  && v.parent != 0 && v.parent !in t.callToNode
                  && (v.parent in AccountsAtKey(s, key).delivered <==> v.parent in t.pending))
            && (v.UnresolvedFn? ==> v.fnId == t.pending[v.callId].fnId && v.fnId !in t.dict)
  {
    hide DiskOk, FinalizedTo, FileAtKey, AccountsAtKey, Consistent, Quiescent;
    var t, a := FileAtKey(s, key).tables, AccountsAtKey(s, key);
    OpenedFile(s, key);
    ConsistentIsKeyed(t, a.delivered);
    ConsistentIsQuiescent(t, a.delivered);
    ConsistentKnows(t, a.delivered);
    var rows := FinalizeAppends(s, s', key, force, fault, o);
    VerdictsAreTrue(t, rows, i - |t.anomalies|);
    VerdictIsOwed(t, rows, i - |t.anomalies|);
  }

  lemma ConsistentKnows(t: Tables, d: map<nat, Call>)
    requires Consistent(t, d)
    ensures forall id :: id in d <==> id in t.callToNode || id in t.pending
  {
    hide Inv, Quiescent;
    if Settled(t, d) {
      KnownIsDelivered(t, d);
    }
  }

  lemma ConsistentIsQuiescent(t: Tables, d: map<nat, Call>)
    requires Consistent(t, d)
    ensures Quiescent(t)
  {
    hide Inv;
  }

  lemma VerdictIsOwed(t: Tables, rows: seq<Anomaly>, i: nat)
    requires VerdictsOn(t, rows) && i < |rows|
    ensures rows[i].callId in t.pending && rows[i] == Verdict(t, t.pending[rows[i].callId])
  {
  }

  lemma FinalizeAppends(s: Disk, s': Disk, key: TraceKey, force: bool, fault: Fault, o: FinalizeOutcome)
    returns (rows: seq<Anomaly>)
    requires FinalizedTo(s, s', key, force, fault, o)
    ensures VerdictsOn(FileAtKey(s, key).tables, rows)
    ensures FileAtKey(s', key).tables.anomalies == FileAtKey(s, key).tables.anomalies + rows
  {
    hide FoldedOnly, Put, PutRow, Total, VerdictsOn, UnknownAmong;
    rows :| VerdictsOn(FileAtKey(s, key).tables, rows)
      && FileAtKey(s', key) == ClosedFile(FileAtKey(s, key), rows, o.cpuAvailable);
  }

  lemma RetryCounts(s: Disk, s1: Disk, s2: Disk, key: TraceKey, batch: Batch, t1: int, t2: int, o1: Outcome,
                    o2: Outcome, indexed: bool)
    requires RecordedTo(s, s1, key, batch, t1, o1, indexed) && RecordedTo(s1, s2, key, batch, t2, o2, true)
    ensures o2.callCountDelta == 0 && o2.redeliveredSkipped == |batch.calls|
  {
    hide Settled, Total, Deliver, Put, PutRow;
    DeliverKeeps(AccountsAtKey(s, key).delivered, batch.calls);
    RedeliveryDeliversNothing(AccountsAtKey(s1, key).delivered, batch.calls);
  }

  /** When retrying the batch of a lost index commit repairs the row, read off what is there before the
      first attempt: the call count if and only if the row lacked nothing and no call of the batch was new,
      the wall if and only if it lacked none and no new call took any time. The retry itself counts no call. */
  lemma RetryRepairsIff(s: Disk, s1: Disk, s2: Disk, key: TraceKey, batch: Batch, t1: int, t2: int, o1: Outcome,
                        o2: Outcome)
    requires DiskOk(s) && key !in s.orphaned
    requires RecordedTo(s, s1, key, batch, t1, o1, false) && RecordedTo(s1, s2, key, batch, t2, o2, true)
    ensures o2.callCountDelta == 0 && o2.redeliveredSkipped == |batch.calls|
    ensures var a, a2, f2, row2 := AccountsAtKey(s, key), AccountsAtKey(s2, key), FileAtKey(s2, key), RowAtKey(s2, key);
            && (row2.callCount == Justified(f2.tables) <==> a.behind.calls == 0 && AllKnown(a.delivered, batch.calls))
            && (row2.totalWall == Total(a2.delivered).wall + a2.droppedWall
                <==> a.behind.wall == 0 && NoNewWall(a.delivered, batch.calls))
  {
    hide DiskOk, Total, Justified, RecordedTo, AllKnown, NoNewWall, Deliver, SlotOk, FileAtKey, RowAtKey, AccountsAtKey;
    var a := AccountsAtKey(s, key);
    RetryCounts(s, s1, s2, key, batch, t1, t2, o1, o2, false);
    LostDeltas(s, s1, key, batch, t1, o1);
    AddsNoCallIff(a.delivered, batch.calls);
    AddsNoWallIff(a.delivered, batch.calls);
    KeySlot(s, key);
    RetriedBalance(s, s1, s2, key, batch, t1, t2, o1, o2);
  }

  lemma LostDeltas(s: Disk, s1: Disk, key: TraceKey, batch: Batch, now: int, o: Outcome)
    requires RecordedTo(s, s1, key, batch, now, o, false)
    ensures var d := AccountsAtKey(s, key).delivered;
            && o.callCountDelta == |Deliver(d, batch.calls)| - |d|
            && o.totalWallDelta == Total(Deliver(d, batch.calls)).wall - Total(d).wall
  {
    hide Settled, Total, Deliver, Put, PutRow;
  }

  lemma RecordedSlot(s: Disk, s': Disk, key: TraceKey, batch: Batch, now: int, o: Outcome, indexed: bool)
    requires RecordedTo(s, s', key, batch, now, o, indexed)
    requires SlotOk(key in s.index, RowAtKey(s, key), FileAtKey(s, key), AccountsAtKey(s, key))
    ensures SlotOk(key in s'.index, RowAtKey(s', key), FileAtKey(s', key), AccountsAtKey(s', key))
    ensures AccountsAtKey(s', key).behind == AfterRecord(AccountsAtKey(s, key).behind, o, indexed)
  {
    hide SlotOk, Settled, Total, Deliver, Upserted, AfterRecord, Traced, Reported, Prepared;
    RecordKeepsSlot(key in s.index, RowAtKey(s, key), FileAtKey(s, key), AccountsAtKey(s, key), batch, now,
                    FileAtKey(s', key).tables, AccountsAtKey(s', key).delivered, o);
  }

  /** After the retry the row lacks what it lacked before plus the lost deltas. */
  lemma RetriedBalance(s: Disk, s1: Disk, s2: Disk, key: TraceKey, batch: Batch, t1: int, t2: int, o1: Outcome,
                       o2: Outcome)
    requires SlotOk(key in s.index, RowAtKey(s, key), FileAtKey(s, key), AccountsAtKey(s, key))
    requires RecordedTo(s, s1, key, batch, t1, o1, false) && RecordedTo(s1, s2, key, batch, t2, o2, true)
    ensures var a, a2, f2, row2 := AccountsAtKey(s, key), AccountsAtKey(s2, key), FileAtKey(s2, key), RowAtKey(s2, key);
            && row2.callCount + a.behind.calls + o1.callCountDelta == Justified(f2.tables)
            && row2.totalWall + a.behind.wall + o1.totalWallDelta == Total(a2.delivered).wall + a2.droppedWall
  {
    hide SlotOk, Total, Justified, RecordedTo, RowAtKey, FileAtKey, AccountsAtKey;
    assert key in s2.index by { IndexedIsListed(s1, s2, key, batch, t2, o2); }
    RecordedSlot(s, s1, key, batch, t1, o1, false);
    RecordedSlot(s1, s2, key, batch, t2, o2, true);
    SlotBalance(RowAtKey(s2, key), FileAtKey(s2, key), AccountsAtKey(s2, key));
  }

  lemma SlotBalance(row: IndexRow, f: TraceFile, a: Accounts)
    requires SlotOk(true, row, f, a)
    ensures row.callCount + a.behind.calls == Justified(f.tables)
    ensures row.totalWall + a.behind.wall == Total(a.delivered).wall + a.droppedWall
  {
    hide Consistent, InStep, Total, Justified;
  }

  lemma IndexedIsListed(s: Disk, s': Disk, key: TraceKey, batch: Batch, now: int, o: Outcome)
    requires RecordedTo(s, s', key, batch, now, o, true)
    ensures key in s'.index
  {
    hide RecordedFile;
  }
}
