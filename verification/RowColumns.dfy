/** Every column of an index row and of its file's meta row over whole runs: which batches, clocks and
    finalizes it speaks of. */
module RowColumns {
  import opened CallTree
  import opened TraceTables
  import opened Aggregate
  import opened Figures
  import opened Ledger
  import opened TraceStorage
  import opened Finalize
  import opened Deliveries
  import opened Decoder
  import opened RunLedger

  /** The folded calls of a trace used CPU time. */
  ghost predicate UsedCpu(v: View) {
    var folded := FoldedOnly(v.file.tables, v.accounts.delivered);
    SumOf(folded, UserCpu) + SumOf(folded, SystemCpu) > 0
  }

  // ---- one commit ----

  lemma FinalizedCpu(v: View, v': View, force: bool, fault: Fault, o: FinalizeOutcome)
    requires FinalizedView(v, v', force, fault, o)
    ensures o.cpuAvailable <==> UsedCpu(v)
  {
    hide VerdictsOn, FoldedOnly, Total, UnknownAmong, ClosedFile, ClosedRow, AfterFinalize;
    TotalFigures(FoldedOnly(v.file.tables, v.accounts.delivered));
  }

  /** A finalize sets four columns of the row, if its index commit is not lost, and leaves the others; the flag
      says whether the folded calls used CPU time. The meta row gets the state and the flag either way. */
  lemma FinalizeSets(v: View, v': View, turn: Turn, k: TraceKey)
    requires ViewOk(v) && Turned(v, v', turn, k) && TickCloses(v, turn, k)
    ensures v'.hasRow
    ensures v'.row ==
            if FaultFor(turn.faults, k) == IndexCommitFails then v.row
            else IndexRow(Finalized, v.row.firstBatchAt, v.row.lastBatchAt, v.row.batchCount,
                          v.row.callCount, v.row.totalWall, v.row.droppedRecords, |v'.file.tables.anomalies|,
                          UsedCpu(v), 0)
    ensures v'.file.meta ==
      if v.file.meta.Meta? then Meta(Finalized, v.file.meta.droppedRecords, UsedCpu(v)) else NoMeta
  {
    hide ViewOk, UsedCpu, VerdictsOn, FoldedOnly, AfterFinalize, UnknownAmong;
    var fault, force := FaultFor(turn.faults, k), Decide(v.row, turn.now, turn.idle, turn.maxPending) == Force;
    var o :| FinalizedView(v, v', force, fault, o);
    FinalizedCpu(v, v', force, fault, o);
    var rows := FinalizeRows(v.file, v.accounts, v'.file, v'.accounts, fault != IndexCommitFails, o);
  }

  /** A recorded batch, if its index commit is not lost, counts itself and what it added to the file, moves the
      last clock but not the first, and makes the trace active; the CPU flag stays, or is set on a new row. The
      meta row is written anew and the raw batches stay either way. */
  lemma RecordSets(v: View, v': View, turn: Turn, k: TraceKey)
    requires ViewOk(v) && Turned(v, v', turn, k) && Takes(turn, k)
    ensures var t, t', item := v.file.tables, v'.file.tables, turn.item;
            && v'.file.meta == Meta(Active, item.content.batch.droppedRecords, true) && v'.hasRaw == v.hasRaw
            && (item.fault == IndexCommitFails ==> v'.row == v.row && v'.hasRow == v.hasRow)
            && (item.fault != IndexCommitFails ==>
              && v'.hasRow && v'.row.state == Active
              && v'.row.firstBatchAt == (if v.hasRow then v.row.firstBatchAt else item.now)
              && v'.row.lastBatchAt == item.now
              && v'.row.batchCount == (if v.hasRow then v.row.batchCount else 0) + 1
              && v'.row.callCount == v.row.callCount + Justified(t') - Justified(t)
              && v'.row.totalWall == v.row.totalWall + FileWall(t') - FileWall(t)
              && v'.row.droppedRecords == item.content.batch.droppedRecords
              && v'.row.anomalyCount == v.row.anomalyCount + |t'.anomalies| - |t.anomalies|
              && v'.row.cpuAvailable == (if v.hasRow then v.row.cpuAvailable else true)
              && v'.row.pendingCount == |t'.pending|)
  {
    hide SlotOk, Settled, Justified, FileWall, Deliver, Traced, Prepared;
    var item := turn.item;
    var o :| RecordedView(v, v', item.content.batch, item.now, o, item.fault != IndexCommitFails);
    RecordedDeltas(v, v', item.content.batch, item.now, o, item.fault != IndexCommitFails);
  }

  // ---- runs ----

  /** What a trace has seen since its last prune: the items recorded, whether it was finalized after the last of
      them, and what the last finalize found about CPU time. */
  datatype Past = Past(items: seq<Submission>, closed: bool, cpu: bool)

  predicate Prunes(turn: Turn, k: TraceKey) {
    turn.Prune? && turn.key == k
  }

  ghost function PastAfter(p: Past, v: View, turn: Turn, k: TraceKey): Past {
    if Takes(turn, k) then Past(p.items + [turn.item], false, p.cpu)
    else if Prunes(turn, k) then Past([], false, true)
    else if TickCloses(v, turn, k) then Past(p.items, true, UsedCpu(v))
    else p
  }

  ghost function PastOf(views: seq<View>, turns: seq<Turn>, k: TraceKey): Past
    requires |views| == |turns| + 1
    decreases |turns|
  {
    if turns == [] then Past([], false, true)
    else
      var n := |turns| - 1;
      PastAfter(PastOf(views[..n + 1], turns[..n], k), views[n], turns[n], k)
  }

  /** Row and meta row tell of this past. */
  ghost predicate Tells(v: View, p: Past) {
    && (v.hasRow <==> p.items != []) && (!v.hasRow ==> p.cpu)
    && (v.hasRow ==>
          var first, last := p.items[0], p.items[|p.items| - 1];
          && last.content.Parsed?
          && v.row.batchCount == |p.items|
          && v.row.firstBatchAt == first.now && v.row.lastBatchAt == last.now
          && v.row.droppedRecords == last.content.batch.droppedRecords
          && v.row.state == (if p.closed then Finalized else Active)
          && v.row.cpuAvailable == p.cpu
          && v.file.meta == Meta(v.row.state, v.row.droppedRecords, p.closed ==> p.cpu))
  }

  lemma TurnTells(v: View, v': View, turn: Turn, k: TraceKey, p: Past)
    requires ViewOk(v) && Turned(v, v', turn, k) && !LosesIndex(turn, k) && Tells(v, p)
    ensures Tells(v', PastAfter(p, v, turn, k))
  {
    hide ViewOk, UsedCpu, Justified, FileWall, RecordedSomehow, FinalizedSomehow;
    if Takes(turn, k) {
      RecordSets(v, v', turn, k);
    } else if TickCloses(v, turn, k) {
      FinalizeSets(v, v', turn, k);
    }
  }

  /** In every run without a lost index commit of the trace, for a trace not seen before: there is a row if and
      only if a batch was recorded since the last prune; it counts those batches, has the clocks of the first and
      the last of them and the dropped records of the last; its state and CPU flag are those of the last
      finalize; and the meta row agrees, except that its CPU flag is set anew by every batch. */
  lemma {:induction false} RunColumns(views: seq<View>, turns: seq<Turn>, k: TraceKey)
    requires ViewRun(views, turns, k) && Unseen(views[0]) && IndexKept(turns, k)
    ensures Tells(views[|turns|], PastOf(views, turns, k))
    decreases |turns|
  {
    hide ViewOk, Turned, LosesIndex, PastAfter, Tells;
    if turns == [] {
      assert Tells(views[0], PastOf(views, turns, k)) by { UnseenTells(views[0]); }
    } else {
      var n := |turns| - 1;
      ViewRunBefore(views, turns, k);
      assert forall i :: 0 <= i < n ==> turns[..n][i] == turns[i];
      RunColumns(views[..n + 1], turns[..n], k);
      RunAccounts(views[..n + 1], turns[..n], k);
      TurnTells(views[n], views[n + 1], turns[n], k, PastOf(views[..n + 1], turns[..n], k));
    }
  }

  /** Without a prune the items are those of the trace's recorded history, batch by batch. */
  lemma {:induction false} ItemsAreHistory(views: seq<View>, turns: seq<Turn>, k: TraceKey)
    requires |views| == |turns| + 1 && forall i :: 0 <= i < |turns| ==> !Prunes(turns[i], k)
    ensures |PastOf(views, turns, k).items| == |History(turns, k)|
    ensures forall i :: 0 <= i < |History(turns, k)| ==>
      PastOf(views, turns, k).items[i].content == Parsed(History(turns, k)[i])
    decreases |turns|
  {
    hide TickCloses, UsedCpu;
    if turns != [] {
      var n := |turns| - 1;
      assert forall i :: 0 <= i < n ==> turns[..n][i] == turns[i];
      ItemsAreHistory(views[..n + 1], turns[..n], k);
    }
  }

  lemma UnseenTells(v: View)
    requires Unseen(v)
    ensures Tells(v, Past([], false, true))
  {
  }

  /** The flag of the index row and that of the meta row agree if and only if the trace was finalized after its
      last batch, or its last finalize found CPU time or there was none: a batch for a finalized trace sets
      the one and not the other. */
  lemma FlagsAgreeIff(views: seq<View>, turns: seq<Turn>, k: TraceKey)
    requires ViewRun(views, turns, k) && Unseen(views[0]) && IndexKept(turns, k) && views[|turns|].hasRow
    ensures var v, p := views[|turns|], PastOf(views, turns, k);
            v.file.meta.Meta? && (v.row.cpuAvailable == v.file.meta.cpuAvailable <==> p.closed || p.cpu)
  {
    hide Turned, LosesIndex, PastOf;
    RunColumns(views, turns, k);
  }

  /** Any finalize on the way, in any run, whatever commits were lost before it. */
  lemma RunFinalizeSets(views: seq<View>, turns: seq<Turn>, k: TraceKey, i: nat)
    requires ViewRun(views, turns, k) && Unseen(views[0]) && i < |turns| && TickCloses(views[i], turns[i], k)
    requires FaultFor(turns[i].faults, k) != IndexCommitFails
    ensures var v, v' := views[i], views[i + 1];
            && v'.hasRow
            && v'.row == v.row.(state := Finalized, anomalyCount := |v'.file.tables.anomalies|,
                                cpuAvailable := UsedCpu(v), pendingCount := 0)
            && v'.file.meta
               == if v.file.meta.Meta? then Meta(Finalized, v.file.meta.droppedRecords, UsedCpu(v)) else NoMeta
  {
    hide Turned, ViewOk, UsedCpu, TickCloses;
    UnseenIsOk(views[0]);
    RunKeepsOk(views[..i + 1], turns[..i], k);
    FinalizeSets(views[i], views[i + 1], turns[i], k);
  }

  /** In a run that loses neither calls nor index commits of the trace, its row counts the calls its batches
      deliver and the time they took. */
  lemma RowFiguresOverRuns(views: seq<View>, turns: seq<Turn>, k: TraceKey)
    requires CleanRun(views, turns, k) && History(turns, k) != [] && IndexKept(turns, k)
    ensures |views| == |turns| + 1
    ensures var row, d := views[|turns|].row, DeliverAll(map[], History(turns, k));
            row.callCount == |d| && row.totalWall == SumOf(d, Elapsed)
  {
    hide History, Total, IndexKept, LosesNothing, Turned, Inv, SlotOk, DeliverAll, Settled, UsedCpu;
    AgreedColumns(views, turns, k);
    Followed(views, turns, k);
    var v := views[|turns|];
    TotalFigures(v.accounts.delivered);
    RunAccounts(views, turns, k);
    assert Consistent(v.file.tables, v.accounts.delivered) by { OkIsConsistent(v); }
    ConsistentSize(v.file.tables, v.accounts.delivered);
  }
}
