/** The index row over whole runs: what it says is what the trace's file holds, less the sum of what lost
    index commits kept from it. Both sides are read off rows and files; nothing here is bookkeeping. */
module RunLedger {
  import opened Wire
  import opened CallTree
  import opened TraceTables
  import opened Aggregate
  import opened SelfTime
  import opened Ledger
  import opened TraceStorage
  import opened Lifecycle
  import opened Finalize
  import opened Decoder
  import opened Refinement

  // ---- what a file holds ----

  ghost function ParkedPayloads(t: Tables): map<nat, Call> {
    map id | id in t.pending :: FromRow(t.pending[id], 0)
  }

  /** Wall time in a file: the rows below the root and the parked calls. */
  ghost function FileWall(t: Tables): int {
    RowTotals(t.nodes, t.nodes.Keys - {ROOT}).wall + Total(ParkedPayloads(t)).wall
  }

  lemma {:induction false} SameWalls(a: map<nat, Call>, b: map<nat, Call>)
    requires a.Keys == b.Keys && forall id :: id in a ==> Wall(a[id]) == Wall(b[id])
    ensures Total(a).wall == Total(b).wall
    decreases |a|
  {
    hide Wall;
    if a == map[] {
      assert b == map[];
    } else {
      var id :| id in a;
      TotalRemove(a, id);
      TotalRemove(b, id);
      SameWalls(a - {id}, b - {id});
    }
  }

  lemma ParkedAgree(t: Tables, d: map<nat, Call>)
    requires Inv(t, d)
    ensures ParkedPayloads(t).Keys == ParkedCalls(t, d).Keys
    ensures forall id :: id in ParkedPayloads(t) ==> Wall(ParkedPayloads(t)[id]) == Wall(ParkedCalls(t, d)[id])
  {
    hide TreeOk, InPlace, Summed, Populated, InvertedOnce, Aligned, DepthsOk;
  }

  lemma WallIsDelivered(t: Tables, d: map<nat, Call>)
    requires Consistent(t, d)
    ensures FileWall(t) == Total(d).wall && Total(ParkedCalls(t, d)).wall == Total(ParkedPayloads(t)).wall
  {
    hide Inv, Total, RowTotals;
    ConsistentTotals(t, d);
    if Settled(t, d) {
      ParkedAgree(t, d);
    } else {
      assert ParkedPayloads(t) == map[] && ParkedCalls(t, d) == map[];
    }
    SameWalls(ParkedPayloads(t), ParkedCalls(t, d));
  }

  // ---- what lost index commits keep from the row ----

  /** The turn finalizes the trace in its file. */
  ghost predicate TickCloses(v: View, turn: Turn, k: TraceKey) {
    && turn.Tick? && !turn.listingFails && v.hasRow && IsFinal(Decide(v.row, turn.now, turn.idle, turn.maxPending))
    && FaultFor(turn.faults, k) != TraceCommitFails
  }

  /** What the row lacks after one more turn. A batch whose index commit is lost: all it added to the file. A
      finalize: nothing of the anomaly count, which it sets absolutely, or else the verdicts it wrote. A
      prune: nothing, or else the row is ahead by all it says. */
  ghost function LostAfter(b: Behind, v: View, v': View, turn: Turn, k: TraceKey): Behind {
    var t, t' := v.file.tables, v'.file.tables;
    match turn
    case Take(item) =>
      if Takes(turn, k) && item.fault == IndexCommitFails then
        Behind(b.calls + Justified(t') - Justified(t), b.wall + FileWall(t') - FileWall(t),
               b.anomalies + |t'.anomalies| - |t.anomalies|)
      else b
    case Tick(_, _, _, _, faults) =>
      if !TickCloses(v, turn, k) then b
      else if FaultFor(faults, k) == IndexCommitFails then b.(anomalies := b.anomalies + |t'.anomalies| - |t.anomalies|)
      else b.(anomalies := 0)
    case Prune(key, fault) =>
      if key != k then b
      else if v.hasRow && fault == IndexCommitFails then AheadBy(v.row.callCount, v.row.totalWall, v.row.anomalyCount)
      else IN_FULL
  }

  /** The same over a series of turns. */
  ghost function Lost(views: seq<View>, turns: seq<Turn>, k: TraceKey): Behind
    requires |views| == |turns| + 1
    decreases |turns|
  {
    if turns == [] then IN_FULL
    else
      var n := |turns| - 1;
      LostAfter(Lost(views[..n + 1], turns[..n], k), views[n], views[n + 1], turns[n], k)
  }

  ghost function DroppedAfter(w: int, v: View, turn: Turn, k: TraceKey): int {
    if turn.Prune? && turn.key == k then 0
    else if TickCloses(v, turn, k) then w + Total(ParkedPayloads(v.file.tables)).wall
    else w
  }

  /** Wall time of the parked calls that finalizes have dropped, since the last prune if there was one. */
  ghost function Dropped(views: seq<View>, turns: seq<Turn>, k: TraceKey): int
    requires |views| == |turns| + 1
    decreases |turns|
  {
    if turns == [] then 0
    else
      var n := |turns| - 1;
      DroppedAfter(Dropped(views[..n + 1], turns[..n], k), views[n], turns[n], k)
  }

  lemma RecordedDeltas(v: View, v': View, batch: Batch, now: int, o: Outcome, indexed: bool)
    requires ViewOk(v) && RecordedView(v, v', batch, now, o, indexed)
    ensures var t, t' := v.file.tables, v'.file.tables;
            && Justified(t') == Justified(t) + o.callCountDelta && FileWall(t') == FileWall(t) + o.totalWallDelta
            && |t'.anomalies| == |t.anomalies| + o.anomaliesAdded
  {
    hide Settled, Total, Justified, Deliver, Traced, FileWall, ViewOk;
    var f, f', a, a' := v.file, v'.file, v.accounts, v'.accounts;
    assert Consistent(f.tables, a.delivered) by { OkIsConsistent(v); }
    assert Seed(f.tables.(dict := f'.tables.dict)) == Prepared(f.tables, batch) by { SeedTwice(f.tables, batch); }
    RecordJustified(f.tables, a.delivered, f'.tables, a'.delivered, |batch.calls|, o);
    SettledIsConsistent(f'.tables, a'.delivered);
    WallIsDelivered(f.tables, a.delivered);
    WallIsDelivered(f'.tables, a'.delivered);
  }

  lemma FinalizedDeltas(v: View, v': View, force: bool, fault: Fault, o: FinalizeOutcome)
    requires ViewOk(v) && v.hasRow && FinalizedView(v, v', force, fault, o)
    ensures var t, t' := v.file.tables, v'.file.tables;
            && |t'.anomalies| >= |t.anomalies|
            && v'.accounts.behind
               == AfterFinalize(v.accounts.behind, |t'.anomalies| - |t.anomalies|, fault != IndexCommitFails)
            && v'.accounts.droppedWall == v.accounts.droppedWall + Total(ParkedPayloads(t)).wall
  {
    hide VerdictsOn, FoldedOnly, Total, AfterFinalize, UnknownAmong, ViewOk, ParkedPayloads, RowTotals, Consistent;
    var reached := fault != IndexCommitFails;
    var rows := FinalizeRows(v.file, v.accounts, v'.file, v'.accounts, reached, o);
    OkIsConsistent(v);
    WallIsDelivered(v.file.tables, v.accounts.delivered);
    ConsistentTotals(v.file.tables, v.accounts.delivered);
    CpuOfFolded(v.file.tables, v.accounts.delivered);
  }

  lemma TurnAccounts(v: View, v': View, turn: Turn, k: TraceKey)
    requires ViewOk(v) && Turned(v, v', turn, k)
    ensures v'.accounts.behind == LostAfter(v.accounts.behind, v, v', turn, k)
    ensures v'.accounts.droppedWall == DroppedAfter(v.accounts.droppedWall, v, turn, k)
  {
    hide ViewOk, FinalizedFile, RecordedFile, Justified, FileWall, Total, ParkedPayloads;
    match turn
    case Take(item) =>
      if Takes(turn, k) {
        var o :| RecordedView(v, v', item.content.batch, item.now, o, item.fault != IndexCommitFails);
        RecordedDeltas(v, v', item.content.batch, item.now, o, item.fault != IndexCommitFails);
      }
    case Tick(now, idle, maxPending, listingFails, faults) =>
      if TickCloses(v, turn, k) {
        var force := Decide(v.row, now, idle, maxPending) == Force;
        var o :| FinalizedView(v, v', force, FaultFor(faults, k), o);
        FinalizedDeltas(v, v', force, FaultFor(faults, k), o);
      }
    case Prune(_, _) =>
  }

  lemma {:induction false} RunAccounts(views: seq<View>, turns: seq<Turn>, k: TraceKey)
    requires ViewRun(views, turns, k) && Unseen(views[0])
    ensures ViewOk(views[|turns|])
    ensures views[|turns|].accounts.behind == Lost(views, turns, k)
    ensures views[|turns|].accounts.droppedWall == Dropped(views, turns, k)
    decreases |turns|
  {
    hide ViewOk, Turned, LostAfter, DroppedAfter;
    UnseenIsOk(views[0]);
    RunKeepsOk(views, turns, k);
    if turns != [] {
      var n := |turns| - 1;
      ViewRunBefore(views, turns, k);
      RunAccounts(views[..n + 1], turns[..n], k);
      TurnAccounts(views[n], views[n + 1], turns[n], k);
    }
  }

  /** Conservation over every run, whatever fails: for a trace not seen before the run, what its index row
      says plus what lost index commits kept from it is what its file holds; for the wall, together with
      what finalizes have dropped. */
  lemma RunConservation(views: seq<View>, turns: seq<Turn>, k: TraceKey)
    requires ViewRun(views, turns, k) && Unseen(views[0]) && views[|turns|].hasRow
    ensures var row, t, lost := views[|turns|].row, views[|turns|].file.tables, Lost(views, turns, k);
            && row.callCount + lost.calls == |t.callToNode| + |t.pending| + Verdicts(t.anomalies)
            && row.totalWall + lost.wall == FileWall(t) + Dropped(views, turns, k)
            && row.anomalyCount + lost.anomalies == |t.anomalies|
  {
    hide Consistent, FileWall, Total, Verdicts, Lost, Dropped, Turned;
    RunAccounts(views, turns, k);
    var v := views[|turns|];
    WallIsDelivered(v.file.tables, v.accounts.delivered);
  }

  // ---- runs without a lost prune ----

  /** The turn prunes the trace's files and loses the commit that removes its row. */
  predicate Orphans(turn: Turn, k: TraceKey) {
    turn.Prune? && turn.key == k && turn.fault == IndexCommitFails
  }

  lemma TurnNotAhead(v: View, v': View, turn: Turn, k: TraceKey)
    requires ViewOk(v) && NotAhead(v.accounts.behind) && Turned(v, v', turn, k) && !Orphans(turn, k)
    ensures NotAhead(v'.accounts.behind)
  {
    hide ViewOk, FinalizedFile, RecordedFile;
    match turn
    case Take(item) =>
      if Takes(turn, k) {
        var o :| RecordedView(v, v', item.content.batch, item.now, o, item.fault != IndexCommitFails);
      }
    case Tick(now, idle, maxPending, listingFails, faults) =>
      if TickCloses(v, turn, k) {
        var force := Decide(v.row, now, idle, maxPending) == Force;
        var o :| FinalizedView(v, v', force, FaultFor(faults, k), o);
        FinalizedDeltas(v, v', force, FaultFor(faults, k), o);
      }
    case Prune(_, _) =>
  }

  /** Whatever index commits of recordings and finalizes are lost on the way, the row never says more than
      the file holds and finalizes have dropped. */
  lemma {:induction false} RunNeverAhead(views: seq<View>, turns: seq<Turn>, k: TraceKey)
    requires ViewRun(views, turns, k) && Unseen(views[0])
    requires forall i :: 0 <= i < |turns| ==> !Orphans(turns[i], k)
    ensures NotAhead(Lost(views, turns, k))
    ensures var row, t := views[|turns|].row, views[|turns|].file.tables;
            views[|turns|].hasRow ==>
              && row.callCount <= |t.callToNode| + |t.pending| + Verdicts(t.anomalies)
              && row.totalWall <= FileWall(t) + Dropped(views, turns, k)
              && row.anomalyCount <= |t.anomalies|
    decreases |turns|
  {
    hide ViewOk, Turned, Orphans, Lost, Dropped, FileWall, Verdicts;
    RunAccounts(views, turns, k);
    if turns != [] {
      var n := |turns| - 1;
      ViewRunBefore(views, turns, k);
      assert forall i :: 0 <= i < n ==> turns[..n][i] == turns[i];
      RunNeverAhead(views[..n + 1], turns[..n], k);
      RunAccounts(views[..n + 1], turns[..n], k);
      TurnNotAhead(views[n], views[n + 1], turns[n], k);
    }
    if views[|turns|].hasRow {
      RunConservation(views, turns, k);
    }
  }

  // ---- runs without a lost index commit ----

  /** The turn loses an index commit for trace `k`. */
  predicate LosesIndex(turn: Turn, k: TraceKey) {
    match turn
    case Take(item) => Takes(turn, k) && item.fault == IndexCommitFails
    case Tick(_, _, _, _, faults) => FaultFor(faults, k) == IndexCommitFails
    case Prune(key, fault) => key == k && fault == IndexCommitFails
  }

  predicate IndexKept(turns: seq<Turn>, k: TraceKey) {
    forall i :: 0 <= i < |turns| ==> !LosesIndex(turns[i], k)
  }

  /** Row and file tell the same story: both there and in step, or neither. */
  ghost predicate InTune(v: View) {
    !v.accounts.stale && !v.orphaned && if v.hasRow then v.file.meta.Meta? else v.file == FRESH_FILE
  }

  lemma TurnInTune(v: View, v': View, turn: Turn, k: TraceKey)
    requires ViewOk(v) && InTune(v) && Turned(v, v', turn, k) && !LosesIndex(turn, k)
    ensures InTune(v')
  {
    hide ViewOk, RecordedFile, FinalizedFile, RecordedAccounts, Upserted;
    match turn
    case Take(item) =>
      if Takes(turn, k) {
        var o :| RecordedView(v, v', item.content.batch, item.now, o, true);
        RecordedInTune(v, v', item.content.batch, item.now, o);
      }
    case Tick(now, idle, maxPending, listingFails, faults) =>
      if TickCloses(v, turn, k) {
        var force := Decide(v.row, now, idle, maxPending) == Force;
        var o :| FinalizedView(v, v', force, FaultFor(faults, k), o);
        var rows := FinalizeRows(v.file, v.accounts, v'.file, v'.accounts, true, o);
      }
    case Prune(_, _) =>
  }

  lemma RecordedInTune(v: View, v': View, batch: Batch, now: int, o: Outcome)
    requires RecordedView(v, v', batch, now, o, true)
    ensures v'.hasRow && v'.file.meta.Meta? && !v'.accounts.stale && v'.orphaned == v.orphaned
  {
    hide Settled, Reported, Traced, Deliver, Prepared, Upserted;
  }

  lemma {:induction false} RunInTune(views: seq<View>, turns: seq<Turn>, k: TraceKey)
    requires ViewRun(views, turns, k) && Unseen(views[0]) && IndexKept(turns, k)
    ensures InTune(views[|turns|]) && Lost(views, turns, k) == IN_FULL
    decreases |turns|
  {
    hide ViewOk, Turned, InTune, LosesIndex;
    if turns == [] {
      assert InTune(views[0]) by { UnseenInTune(views[0]); }
    } else {
      var n := |turns| - 1;
      ViewRunBefore(views, turns, k);
      assert forall i :: 0 <= i < n ==> turns[..n][i] == turns[i];
      RunInTune(views[..n + 1], turns[..n], k);
      RunAccounts(views[..n + 1], turns[..n], k);
      TurnInTune(views[n], views[n + 1], turns[n], k);
      NothingLost(views[n], views[n + 1], turns[n], k);
    }
  }

  lemma UnseenInTune(v: View)
    requires Unseen(v)
    ensures InTune(v)
  {
  }

  lemma NothingLost(v: View, v': View, turn: Turn, k: TraceKey)
    requires !LosesIndex(turn, k)
    ensures LostAfter(IN_FULL, v, v', turn, k) == IN_FULL
  {
    hide Justified, FileWall;
  }

  /** In every run in which no index commit of the trace is lost, its index row is exact: call count, wall,
      anomaly count, pending count and state are what the file says; and there is a row as soon as there is
      anything in the file. */
  lemma RunIsExact(views: seq<View>, turns: seq<Turn>, k: TraceKey)
    requires ViewRun(views, turns, k) && Unseen(views[0]) && IndexKept(turns, k)
    ensures var v := views[|turns|];
            var t := v.file.tables;
            if v.hasRow then
              && v.row.callCount == |t.callToNode| + |t.pending| + Verdicts(t.anomalies)
              && v.row.totalWall == FileWall(t) + Dropped(views, turns, k)
              && v.row.anomalyCount == |t.anomalies| && v.row.pendingCount == |t.pending|
              && v.file.meta.Meta? && v.row.state == v.file.meta.state
            else v.file == FRESH_FILE
  {
    hide Consistent, Balanced, FileWall, Verdicts, Lost, Dropped, Turned, IndexKept;
    RunInTune(views, turns, k);
    RunAccounts(views, turns, k);
    if views[|turns|].hasRow {
      RunConservation(views, turns, k);
    }
  }

  /** In such a run a tick removes raw batches only of a trace with nothing parked, and writes no verdict. */
  lemma RunRemovesRawWhenDrained(views: seq<View>, turns: seq<Turn>, k: TraceKey, v': View, now: int, idle: nat,
                                 maxPending: nat, fault: Fault)
    requires ViewRun(views, turns, k) && Unseen(views[0]) && IndexKept(turns, k)
    requires Ticked(views[|turns|], v', now, idle, maxPending, fault) && views[|turns|].hasRaw && !v'.hasRaw
    ensures views[|turns|].file.tables.pending == map[] && v'.file.tables == views[|turns|].file.tables
  {
    hide SlotOk, Lost, Dropped, Turned, IndexKept, Ticked;
    RunInTune(views, turns, k);
    RunAccounts(views, turns, k);
    TickRemovesRawIff(views[|turns|], v', now, idle, maxPending, fault);
    RawRemovedOnlyWhenDrained(views[|turns|], v', now, idle, maxPending, fault);
  }

  /** Two runs that carry the same calls and functions for a trace, reordered, re-split or repeated, without
      a lost index commit for it, end with the same call count, wall and pending count in its index row. */
  lemma QueuesAgreeOnIndex(views1: seq<View>, q1: seq<Turn>, views2: seq<View>, q2: seq<Turn>, k: TraceKey)
    requires CleanRun(views1, q1, k) && CleanRun(views2, q2, k) && SameHistories(History(q1, k), History(q2, k))
    requires IndexKept(q1, k) && IndexKept(q2, k)
    ensures var v1, v2 := views1[|q1|], views2[|q2|];
            && v1.hasRow && v2.hasRow && v1.row.callCount == v2.row.callCount && v1.row.totalWall == v2.row.totalWall
            && v1.row.pendingCount == v2.row.pendingCount
  {
    hide CleanRun, SameHistories, History, Total, IndexKept, ByPath, Inversions, TreeOk;
    assert History(q1, k) != [] && History(q2, k) != [] by { NonEmpty(History(q1, k), History(q2, k)); }
    AgreedColumns(views1, q1, k);
    AgreedColumns(views2, q2, k);
    QueuesAgree(views1, q1, views2, q2, k);
    var t1, t2 := views1[|q1|].file.tables, views2[|q2|].file.tables;
    SameSize(t1.callToNode, t2.callToNode);
  }

  lemma SameSize(a: map<nat, nat>, b: map<nat, nat>)
    requires a.Keys == b.Keys
    ensures |a| == |b|
  {
    assert |a.Keys| == |a| && |b.Keys| == |b|;
  }

  lemma NonEmpty(h1: seq<Batch>, h2: seq<Batch>)
    requires SameHistories(h1, h2)
    ensures h1 != [] && h2 != []
  {
  }

  lemma AgreedColumns(views: seq<View>, q: seq<Turn>, k: TraceKey)
    requires CleanRun(views, q, k) && History(q, k) != [] && IndexKept(q, k)
    ensures |views| == |q| + 1
    ensures var v := views[|q|];
            && v.hasRow && v.row.callCount == |v.file.tables.callToNode| + |v.file.tables.pending|
            && v.row.totalWall == Total(v.accounts.delivered).wall && v.row.pendingCount == |v.file.tables.pending|
  {
    hide History, Verdicts, Total, FileWall, IndexKept, LosesNothing, Turned, Dropped, Inv;
    Followed(views, q, k);
    RunIsExact(views, q, k);
    RunAccounts(views, q, k);
    var v := views[|q|];
    assert v.hasRow by { NotEmptyFile(v.file.tables, v.accounts.delivered); }
    assert Consistent(v.file.tables, v.accounts.delivered) by { OkIsConsistent(v); }
    WallIsDelivered(v.file.tables, v.accounts.delivered);
  }

  lemma NotEmptyFile(t: Tables, d: map<nat, Call>)
    requires Settled(t, d)
    ensures t != EMPTY
  {
    hide UniqueKeys, Partitioned, InPlace, Summed, Populated, InvertedOnce, Aligned, DepthsOk, Quiescent;
  }
}
