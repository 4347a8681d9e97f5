/** The decoder task (`http/server.rs`): takes submissions off the queue one by one and records them, with
    the idle tick and the retention sweep taking their turns at the storage in between. */
module Decoder {
  import opened Wire
  import opened CallTree
  import opened TraceTables
  import opened Refinement
  import opened Aggregate
  import opened Deliveries
  import opened Names
  import opened Ledger
  import opened TraceStorage
  import opened Lifecycle
  import opened Finalize

  /** What reading and parsing a committed batch file yields. */
  datatype Content = Unreadable | Parsed(batch: Batch)

  /** A queue item, the clock when it is taken, and what the storage does to it. */
  datatype Submission = Submission(key: TraceKey, content: Content, now: int, fault: Fault)

  /** Whoever holds the storage mutex next: the decoder with an item, the idle tick, or the retention sweep. */
  datatype Turn =
    | Take(item: Submission)
    | Tick(now: int, idle: nat, maxPending: nat, listingFails: bool, faults: map<TraceKey, Fault>)
    | Prune(key: TraceKey, fault: Fault)

  predicate Takes(turn: Turn, k: TraceKey) {
    turn.Take? && turn.item.key == k && turn.item.content.Parsed? && turn.item.fault != TraceCommitFails
  }

  /** The batches of `k` that reach its file, in order. */
  ghost function History(turns: seq<Turn>, k: TraceKey): seq<Batch>
    decreases |turns|
  {
    if turns == [] then []
    else
      var last := turns[|turns| - 1];
      History(turns[..|turns| - 1], k) + if Takes(last, k) then [last.item.content.batch] else []
  }

  /** The trace went from (`t0`, `a0`) to (`t`, `a`) by recording `batches`. */
  ghost predicate Follows(t0: Tables, a0: Accounts, t: Tables, a: Accounts, batches: seq<Batch>) {
    if batches == [] then t == t0 && a.delivered == a0.delivered && a.droppedWall == a0.droppedWall
    else
      && Settled(t, a.delivered) && a.delivered == DeliverAll(a0.delivered, batches)
      && t.dict.Keys == t0.dict.Keys + AllFns(batches) && t.dict == AddEntries(t0.dict, Offered(batches))
      && Verdicts(t.anomalies) == Verdicts(t0.anomalies) && a.droppedWall == a0.droppedWall
  }

  lemma {:induction false} DeliverAllAppend(d: map<nat, Call>, batches: seq<Batch>, b: Batch)
    ensures DeliverAll(d, batches + [b]) == Deliver(DeliverAll(d, batches), b.calls)
    decreases |batches|
  {
    hide Deliver;
    if batches == [] {
      assert batches + [b] == [b];
      assert DeliverAll(Deliver(d, b.calls), [b][1..]) == Deliver(d, b.calls);
    } else {
      assert (batches + [b])[1..] == batches[1..] + [b];
      DeliverAllAppend(Deliver(d, batches[0].calls), batches[1..], b);
    }
  }

  lemma {:induction false} AllFnsAppend(batches: seq<Batch>, b: Batch)
    ensures AllFns(batches + [b]) == AllFns(batches) + Entries(b.dict)
    decreases |batches|
  {
    if batches == [] {
      assert batches + [b] == [b] && [b][1..] == [];
    } else {
      assert (batches + [b])[1..] == batches[1..] + [b];
      AllFnsAppend(batches[1..], b);
    }
  }

  lemma {:induction false} AddEntriesKeys(dict: map<nat, DictEntry>, entries: seq<DictEntry>)
    ensures AddEntries(dict, entries).Keys == dict.Keys + Entries(entries)
    decreases |entries|
  {
    if entries != [] {
      AddEntriesKeys(AddEntry(dict, entries[0]), entries[1..]);
      EntriesCons(entries);
    }
  }

  lemma EntriesCons(entries: seq<DictEntry>)
    requires entries != []
    ensures Entries(entries) == Entries(entries[1..]) + if entries[0].kind <= 3 then {entries[0].fnId} else {}
  {
    var rest := entries[1..];
    forall x | x in Entries(rest)
      ensures x in Entries(entries)
    {
      var i :| 0 <= i < |rest| && rest[i].kind <= 3 && rest[i].fnId == x;
      assert entries[i + 1] == rest[i];
    }
    forall x | x in Entries(entries)
      ensures x in Entries(rest) + if entries[0].kind <= 3 then {entries[0].fnId} else {}
    {
      var i :| 0 <= i < |entries| && entries[i].kind <= 3 && entries[i].fnId == x;
      if i > 0 {
        assert rest[i - 1] == entries[i];
      }
    }
  }

  lemma PreparedKeys(t: Tables, batch: Batch)
    ensures Prepared(t, batch).dict.Keys == t.dict.Keys + Entries(batch.dict) + {0}
  {
    AddEntriesKeys(t.dict, batch.dict);
  }

  lemma PreparedOffers(t0: Tables, batches: seq<Batch>, t: Tables, batch: Batch)
    requires t.dict == AddEntries(t0.dict, Offered(batches))
    ensures Prepared(t, batch).dict == AddEntries(t0.dict, Offered(batches + [batch]))
  {
    hide AddEntries, AddEntry, Offered;
    OfferedAppend(t0.dict, batches, batch);
  }

  lemma NothingOffered(dict: map<nat, DictEntry>)
    ensures AddEntries(dict, Offered([])) == dict
  {
  }

  lemma RecordAddsNoVerdict(f: TraceFile, a: Accounts, f': TraceFile, a': Accounts, batch: Batch, o: Outcome)
    requires RecordedFile(f, a, f', a', batch, o)
    ensures Verdicts(f'.tables.anomalies) == Verdicts(f.tables.anomalies)
  {
    hide Settled, Deliver, Verdicts, Total, Traced;
    InvertedAddsNoVerdict(f.tables.anomalies, f'.tables.anomalies);
  }

  /** Recording one more batch extends the history by it. */
  lemma RecordExtends(t0: Tables, a0: Accounts, batches: seq<Batch>, f: TraceFile, a: Accounts, f': TraceFile,
                      a': Accounts, batch: Batch, o: Outcome)
    requires Follows(t0, a0, f.tables, a, batches) && RecordedFile(f, a, f', a', batch, o)
    ensures Follows(t0, a0, f'.tables, a', batches + [batch])
  {
    hide Settled, Deliver, Verdicts, Reported, Prepared, AddEntries, Entries, Traced, Offered;
    NothingOffered(t0.dict);
    RecordAddsNoVerdict(f, a, f', a', batch, o);
    PreparedKeys(f.tables, batch);
    PreparedOffers(t0, batches, f.tables, batch);
    DeliverAllAppend(a0.delivered, batches, batch);
    AllFnsAppend(batches, batch);
    ZeroKnown(batches);
  }

  lemma {:induction false} ZeroKnown(batches: seq<Batch>)
    ensures 0 in AllFns(batches)
    decreases |batches|
  {
    if batches != [] {
      ZeroKnown(batches[1..]);
    }
  }

  // ---- what a turn does to one trace ----

  /** The batch reached the file, and the index row if its commit was not lost. */
  ghost predicate RecordedView(v: View, v': View, batch: Batch, now: int, o: Outcome, indexed: bool) {
    && RecordedFile(v.file, v.accounts, v'.file, v'.accounts, batch, o)
    && v'.accounts == RecordedAccounts(v.accounts, v'.accounts.delivered, o, indexed)
    && v'.hasRow == (v.hasRow || indexed) && v'.hasRaw == v.hasRaw && v'.orphaned == v.orphaned
    && v'.row == if indexed then Upserted(v.hasRow, v.row, now, batch.droppedRecords, o) else v.row
  }

  ghost predicate RecordedSomehow(v: View, v': View, batch: Batch, now: int, indexed: bool) {
    exists o :: RecordedView(v, v', batch, now, o, indexed)
  }

  /** Files gone; the row too unless its commit was lost. */
  function PrunedView(v: View, indexed: bool): View {
    if v.hasRow && !indexed then View(true, v.row, FRESH_FILE, OrphanAccounts(v.row), false, true)
    else View(false, NO_ROW, FRESH_FILE, FRESH_ACCOUNTS, false, false)
  }

  /** What one turn does to trace `k`. A fault of an index commit is exactly a commit that is lost. */
  ghost predicate Turned(v: View, v': View, turn: Turn, k: TraceKey) {
    match turn
    case Take(item) =>
      if Takes(turn, k) then RecordedSomehow(v, v', item.content.batch, item.now, item.fault != IndexCommitFails)
      else v' == v
    case Tick(now, idle, maxPending, listingFails, faults) =>
      if listingFails then v' == v else Ticked(v, v', now, idle, maxPending, FaultFor(faults, k))
    case Prune(key, fault) => v' == if key == k then PrunedView(v, fault != IndexCommitFails) else v
  }

  /** What a series of turns does to trace `k`. */
  ghost predicate ViewRun(views: seq<View>, turns: seq<Turn>, k: TraceKey) {
    && |views| == |turns| + 1
    && forall i :: 0 <= i < |turns| ==> Turned(views[i], views[i + 1], turns[i], k)
  }

  /** One trace on a series of disks. */
  ghost function Seen(disks: seq<Disk>, k: TraceKey): seq<View> {
    seq(|disks|, i requires 0 <= i < |disks| => ViewAt(disks[i], k))
  }

  ghost predicate IsRun(disks: seq<Disk>, turns: seq<Turn>) {
    forall k :: ViewRun(Seen(disks, k), turns, k)
  }

  lemma RecordedViews(s: Disk, s': Disk, key: TraceKey, batch: Batch, now: int, o: Outcome, indexed: bool, k: TraceKey)
    requires RecordedTo(s, s', key, batch, now, o, indexed)
    ensures if k == key then RecordedView(ViewAt(s, k), ViewAt(s', k), batch, now, o, indexed)
            else ViewAt(s', k) == ViewAt(s, k)
  {
    hide RecordedFile, Upserted, RecordedAccounts;
  }

  lemma DeletedViews(s: Disk, key: TraceKey, indexed: bool, k: TraceKey)
    ensures ViewAt(Deleted(s, key, indexed), k) == if k == key then PrunedView(ViewAt(s, k), indexed) else ViewAt(s, k)
  {
  }

  ghost predicate DiskTurned(s: Disk, s': Disk, turn: Turn) {
    forall k :: Turned(ViewAt(s, k), ViewAt(s', k), turn, k)
  }

  lemma RecordTurn(s: Disk, s': Disk, turn: Turn, o: Outcome)
    requires turn.Take? && Takes(turn, turn.item.key)
    requires var item := turn.item;
             RecordedTo(s, s', item.key, item.content.batch, item.now, o, item.fault != IndexCommitFails)
    ensures DiskTurned(s, s', turn)
  {
    hide RecordedTo, RecordedView, ViewAt;
    var item := turn.item;
    forall k
      ensures Turned(ViewAt(s, k), ViewAt(s', k), turn, k)
    {
      RecordedViews(s, s', item.key, item.content.batch, item.now, o, item.fault != IndexCommitFails, k);
    }
  }

  lemma OpenTurn(s: Disk, turn: Turn, key: TraceKey)
    requires turn.Take? && !Takes(turn, turn.item.key)
    ensures DiskTurned(s, Opened(s, key), turn) && DiskTurned(s, s, turn)
  {
    hide ViewAt, Opened;
    OpenedViews(s, key);
  }

  lemma PruneTurn(s: Disk, turn: Turn)
    requires turn.Prune?
    ensures DiskTurned(s, Deleted(s, turn.key, turn.fault != IndexCommitFails), turn)
  {
    hide ViewAt, Deleted, PrunedView;
    forall k
      ensures Turned(ViewAt(s, k), ViewAt(Deleted(s, turn.key, turn.fault != IndexCommitFails), k), turn, k)
    {
      DeletedViews(s, turn.key, turn.fault != IndexCommitFails, k);
    }
  }

  lemma RunGrows(disks: seq<Disk>, turns: seq<Turn>, turn: Turn, s': Disk)
    requires disks != [] && IsRun(disks, turns) && DiskTurned(disks[|disks| - 1], s', turn)
    ensures IsRun(disks + [s'], turns + [turn])
  {
    hide ViewAt, Turned;
    forall k
      ensures ViewRun(Seen(disks + [s'], k), turns + [turn], k)
    {
      assert ViewRun(Seen(disks, k), turns, k);
      assert Seen(disks + [s'], k) == Seen(disks, k) + [ViewAt(s', k)];
      ViewRunGrows(Seen(disks, k), turns, turn, ViewAt(s', k), k);
    }
  }

  lemma ViewRunGrows(views: seq<View>, turns: seq<Turn>, turn: Turn, v': View, k: TraceKey)
    requires ViewRun(views, turns, k) && Turned(views[|views| - 1], v', turn, k)
    ensures ViewRun(views + [v'], turns + [turn], k)
  {
    hide Turned;
    var views', turns' := views + [v'], turns + [turn];
    forall i | 0 <= i < |turns'|
      ensures Turned(views'[i], views'[i + 1], turns'[i], k)
    {
      if i < |turns| {
        assert views'[i] == views[i] && views'[i + 1] == views[i + 1] && turns'[i] == turns[i];
      }
    }
  }

  /** Receive, parse, record, with ticks and prunes in between; a failure of any kind is logged and the loop
      goes on. Every trace goes through exactly its own share of the turns. */
  method Run(storage: Storage, turns: seq<Turn>) returns (ghost disks: seq<Disk>)
    requires storage.Valid()
    requires forall i :: 0 <= i < |turns| && turns[i].Take? && turns[i].item.content.Parsed? ==>
      FromOne(turns[i].item.content.batch)
    modifies storage
    ensures storage.Valid() && |disks| == |turns| + 1 && IsRun(disks, turns)
    ensures disks[0] == old(storage.OnDisk()) && disks[|turns|] == storage.OnDisk()
  {
    hide DiskOk, RecordedTo, IsRun, Opened, DiskTurned, Ticked, ViewAt, Deleted;
    disks := [storage.OnDisk()];
    NothingTaken(storage.OnDisk());
    var i := 0;
    assert turns[..0] == [];
    while i < |turns|
      invariant 0 <= i <= |turns| && storage.Valid() && IsRun(disks, turns[..i])
      invariant |disks| == i + 1 && disks[0] == old(storage.OnDisk()) && disks[i] == storage.OnDisk()
      decreases |turns| - i
    {
      ghost var s := storage.OnDisk();
      match turns[i] {
        case Take(item) =>
          if item.content.Parsed? {
            var ok, outcome := storage.RecordBatch(item.key, item.content.batch, item.now, item.fault);
            if item.fault == TraceCommitFails {
              OpenTurn(s, turns[i], item.key);
            } else {
              RecordTurn(s, storage.OnDisk(), turns[i], outcome);
            }
          } else {
            OpenTurn(s, turns[i], item.key);
          }
        case Tick(now, idle, maxPending, listingFails, faults) =>
          RunOneTick(storage, now, idle, maxPending, listingFails, faults);
          TickTurn(s, storage.OnDisk(), turns[i]);
        case Prune(key, fault) =>
          var ok := storage.DeleteTrace(key, fault);
          PruneTurn(s, turns[i]);
      }
      RunGrows(disks, turns[..i], turns[i], storage.OnDisk());
      assert turns[..i + 1] == turns[..i] + [turns[i]];
      disks := disks + [storage.OnDisk()];
      i := i + 1;
    }
    assert turns[..i] == turns;
  }

  /** The wire numbers calls from 1. */
  predicate FromOne(batch: Batch) {
    forall j :: 0 <= j < |batch.calls| ==> batch.calls[j].callId >= 1
  }

  lemma TickTurn(s: Disk, s': Disk, turn: Turn)
    requires turn.Tick? && (turn.listingFails ==> s' == s)
    requires !turn.listingFails ==>
               forall k :: Ticked(ViewAt(s, k), ViewAt(s', k), turn.now, turn.idle, turn.maxPending,
                 FaultFor(turn.faults, k))
    ensures DiskTurned(s, s', turn)
  {
    hide Ticked, ViewAt;
  }

  lemma NothingTaken(s: Disk)
    ensures IsRun([s], [])
  {
  }

  // ---- what a run does to one trace ----

  /** The row and the file of the trace are as far apart as its accounts say. */
  ghost predicate ViewOk(v: View) {
    SlotOk(v.hasRow, v.row, v.file, v.accounts) && (!v.hasRow ==> v.row == NO_ROW)
  }

  ghost predicate Unseen(v: View) {
    !v.hasRow && v.row == NO_ROW && v.file == FRESH_FILE && v.accounts == FRESH_ACCOUNTS && !v.orphaned
  }

  lemma UnseenIsOk(v: View)
    requires Unseen(v)
    ensures ViewOk(v)
  {
    hide SlotOk, Kept;
    FreshSlot();
  }

  lemma RecordedIsOk(v: View, v': View, batch: Batch, now: int, o: Outcome, indexed: bool)
    requires ViewOk(v) && RecordedView(v, v', batch, now, o, indexed)
    ensures ViewOk(v')
  {
    hide SlotOk, Settled, Deliver, Upserted, AfterRecord, Traced, Reported, Prepared;
    RecordKeepsSlot(v.hasRow, v.row, v.file, v.accounts, batch, now, v'.file.tables, v'.accounts.delivered, o);
  }

  lemma FinalizedIsOk(v: View, v': View, force: bool, fault: Fault, o: FinalizeOutcome)
    requires ViewOk(v) && v.hasRow && FinalizedView(v, v', force, fault, o)
    ensures ViewOk(v')
  {
    hide SlotOk, VerdictsOn, FoldedOnly, Total, ClosedFile, ClosedRow, AfterFinalize, UnknownAmong;
    var reached := fault != IndexCommitFails;
    var rows := FinalizeRows(v.file, v.accounts, v'.file, v'.accounts, reached, o);
    assert Consistent(v.file.tables, v.accounts.delivered) by { OkIsConsistent(v); }
    CloseTables(v.file.tables, v.accounts.delivered, rows);
    assert v'.accounts == ClosedAccounts(v.file, v.accounts, |rows|, reached, !reached);
    if reached {
      FinalizeKeepsSlot(v.row, v.file, v.accounts, rows, o.cpuAvailable);
    } else {
      FinalizeMissesSlot(true, v.row, v.file, v.accounts, rows, o.cpuAvailable, true);
    }
  }

  lemma FinalizeRows(f: TraceFile, a: Accounts, f': TraceFile, a': Accounts, reached: bool, o: FinalizeOutcome)
    returns (rows: seq<Anomaly>)
    requires FinalizedFile(f, a, f', a', reached, o)
    ensures VerdictsOn(f.tables, rows) && f' == ClosedFile(f, rows, o.cpuAvailable)
    ensures a'.delivered == FoldedOnly(f.tables, a.delivered)
    ensures a'.droppedWall == a.droppedWall + Total(a.delivered).wall - Total(a'.delivered).wall
    ensures a'.behind == AfterFinalize(a.behind, |rows|, reached)
  {
    hide VerdictsOn, FoldedOnly, Total, ClosedFile, AfterFinalize, UnknownAmong;
    rows :|
      && VerdictsOn(f.tables, rows) && f' == ClosedFile(f, rows, o.cpuAvailable)
      && a'.delivered == FoldedOnly(f.tables, a.delivered)
      && a'.droppedWall == a.droppedWall + Total(a.delivered).wall - Total(a'.delivered).wall
      && a'.behind == AfterFinalize(a.behind, |rows|, reached);
  }

  lemma OkIsConsistent(v: View)
    requires ViewOk(v)
    ensures Consistent(v.file.tables, v.accounts.delivered)
  {
    hide Consistent, Balanced, InStep;
  }

  lemma PrunedIsOk(v: View, indexed: bool)
    ensures ViewOk(PrunedView(v, indexed))
  {
    hide SlotOk, Kept, OrphanAccounts;
    FreshSlot();
    OrphanSlot(v.row);
  }

  lemma TurnKeepsOk(v: View, v': View, turn: Turn, k: TraceKey)
    requires ViewOk(v) && Turned(v, v', turn, k)
    ensures ViewOk(v')
  {
    hide ViewOk, RecordedView, FinalizedView, PrunedView;
    match turn
    case Take(item) =>
      if Takes(turn, k) {
        var o :| RecordedView(v, v', item.content.batch, item.now, o, item.fault != IndexCommitFails);
        RecordedIsOk(v, v', item.content.batch, item.now, o, item.fault != IndexCommitFails);
      }
    case Tick(now, idle, maxPending, listingFails, faults) =>
      if v' != v {
        var force := Decide(v.row, now, idle, maxPending) == Force;
        var o :| FinalizedView(v, v', force, FaultFor(faults, k), o);
        FinalizedIsOk(v, v', force, FaultFor(faults, k), o);
      }
    case Prune(_, fault) => PrunedIsOk(v, fault != IndexCommitFails);
  }

  lemma ViewRunBefore(views: seq<View>, turns: seq<Turn>, k: TraceKey)
    requires ViewRun(views, turns, k) && turns != []
    ensures |views| == |turns| + 1 && views[..|turns|][0] == views[0]
    ensures views[..|turns|][|turns| - 1] == views[|turns| - 1]
    ensures ViewRun(views[..|turns|], turns[..|turns| - 1], k)
    ensures Turned(views[|turns| - 1], views[|turns|], turns[|turns| - 1], k)
  {
    hide Turned;
  }

  lemma {:induction false} RunKeepsOk(views: seq<View>, turns: seq<Turn>, k: TraceKey)
    requires ViewRun(views, turns, k) && ViewOk(views[0])
    ensures ViewOk(views[|turns|])
    decreases |turns|
  {
    hide ViewOk, Turned, ViewRun;
    if turns != [] {
      ViewRunBefore(views, turns, k);
      RunKeepsOk(views[..|turns|], turns[..|turns| - 1], k);
      TurnKeepsOk(views[|turns| - 1], views[|turns|], turns[|turns| - 1], k);
    }
  }

  /** The turn took calls of the trace away: a finalize with calls parked, or a prune. */
  ghost predicate Loses(v: View, v': View, turn: Turn, k: TraceKey) {
    || (turn.Tick? && v.file.tables.pending != map[] && v'.file.tables.pending == map[])
    || (turn.Prune? && turn.key == k)
  }

  /** No turn took calls of `k` away; finalizes with nothing parked may be anywhere. */
  ghost predicate LosesNothing(views: seq<View>, turns: seq<Turn>, k: TraceKey)
    requires |views| == |turns| + 1
  {
    forall i :: 0 <= i < |turns| ==> !Loses(views[i], views[i + 1], turns[i], k)
  }

  lemma LosesNothingBefore(views: seq<View>, turns: seq<Turn>, k: TraceKey)
    requires |views| == |turns| + 1 && turns != [] && LosesNothing(views, turns, k)
    ensures LosesNothing(views[..|turns|], turns[..|turns| - 1], k)
    ensures !Loses(views[|turns| - 1], views[|turns|], turns[|turns| - 1], k)
  {
    hide Loses;
  }

  ghost predicate SameTrace(v: View, v': View) {
    && v'.file.tables == v.file.tables && v'.accounts.delivered == v.accounts.delivered
    && v'.accounts.droppedWall == v.accounts.droppedWall
  }

  /** A finalize of a trace with nothing parked leaves its tables and deliveries as they were. */
  lemma FinalizedSame(f: TraceFile, a: Accounts, f': TraceFile, a': Accounts, reached: bool, o: FinalizeOutcome)
    requires FinalizedFile(f, a, f', a', reached, o) && f.tables.pending == map[] && Consistent(f.tables, a.delivered)
    ensures f'.tables == f.tables && a'.delivered == a.delivered && a'.droppedWall == a.droppedWall
  {
    hide VerdictsOn, Total, UnknownAmong, Consistent;
    NothingParkedNothingWritten(f, a, f', a', reached, o);
    AllFolded(f.tables, a.delivered);
  }

  lemma AllFolded(t: Tables, d: map<nat, Call>)
    requires t.pending == map[] && Consistent(t, d)
    ensures FoldedOnly(t, d) == d
  {
    hide Consistent;
    ConsistentKnows(t, d);
  }

  lemma TickedSame(v: View, v': View, now: int, idle: nat, maxPending: nat, fault: Fault)
    requires ViewOk(v) && Ticked(v, v', now, idle, maxPending, fault)
    ensures SameTrace(v, v') || (v.file.tables.pending != map[] && v'.file.tables.pending == map[])
  {
    hide FinalizedFile, ViewOk;
    OkIsConsistent(v);
    if v' != v {
      var o :| FinalizedView(v, v', Decide(v.row, now, idle, maxPending) == Force, fault, o);
      var reached := v.hasRow && fault != IndexCommitFails;
      FinalizeLeavesNothingParked(v.file, v.accounts, v'.file, v'.accounts, reached, o);
      if v.file.tables.pending == map[] {
        FinalizedSame(v.file, v.accounts, v'.file, v'.accounts, reached, o);
      }
    }
  }

  ghost predicate FollowsAt(v0: View, v: View, turns: seq<Turn>, k: TraceKey) {
    Follows(v0.file.tables, v0.accounts, v.file.tables, v.accounts, History(turns, k))
  }

  lemma TurnFollows(v0: View, v: View, v': View, turns: seq<Turn>, k: TraceKey)
    requires turns != [] && FollowsAt(v0, v, turns[..|turns| - 1], k) && ViewOk(v)
    requires Turned(v, v', turns[|turns| - 1], k) && !Loses(v, v', turns[|turns| - 1], k)
    ensures FollowsAt(v0, v', turns, k)
  {
    hide Follows, ViewOk, RecordedFile, RecordedAccounts, Ticked, PrunedView;
    var turn := turns[|turns| - 1];
    if Takes(turn, k) {
      var item := turn.item;
      var o :| RecordedView(v, v', item.content.batch, item.now, o, item.fault != IndexCommitFails);
      RecordExtends(v0.file.tables, v0.accounts, History(turns[..|turns| - 1], k), v.file, v.accounts, v'.file,
                    v'.accounts, item.content.batch, o);
    } else {
      if turn.Tick? && !turn.listingFails {
        TickedSame(v, v', turn.now, turn.idle, turn.maxPending, FaultFor(turn.faults, k));
      }
      assert History(turns, k) == History(turns[..|turns| - 1], k);
      SameFollows(v0, v, v', History(turns, k));
    }
  }

  lemma SameFollows(v0: View, v: View, v': View, batches: seq<Batch>)
    requires Follows(v0.file.tables, v0.accounts, v.file.tables, v.accounts, batches) && SameTrace(v, v')
    ensures Follows(v0.file.tables, v0.accounts, v'.file.tables, v'.accounts, batches)
  {
    hide Settled;
  }

  /** A trace no turn took calls from is where its own batches, in their own order, put it. */
  lemma {:induction false} RunFollows(views: seq<View>, turns: seq<Turn>, k: TraceKey)
    requires ViewRun(views, turns, k) && ViewOk(views[0]) && LosesNothing(views, turns, k)
    ensures FollowsAt(views[0], views[|turns|], turns, k)
    decreases |turns|
  {
    hide ViewOk, Turned, ViewRun, LosesNothing, Loses, Settled;
    if turns != [] {
      ViewRunBefore(views, turns, k);
      LosesNothingBefore(views, turns, k);
      RunFollows(views[..|turns|], turns[..|turns| - 1], k);
      RunKeepsOk(views[..|turns|], turns[..|turns| - 1], k);
      TurnFollows(views[0], views[|turns| - 1], views[|turns|], turns, k);
    }
  }

  /** A run over a trace not seen before, with no turn taking calls of it away. */
  ghost predicate CleanRun(views: seq<View>, turns: seq<Turn>, k: TraceKey) {
    ViewRun(views, turns, k) && Unseen(views[0]) && LosesNothing(views, turns, k)
  }

  /** Two runs, on two collectors or at two times, that carry the same calls and functions for a trace
      neither had seen leave it the same up to row ids, whatever else they interleave, wherever they
      finalize it with nothing parked, and however they reorder, split or repeat its batches. */
  lemma QueuesAgree(views1: seq<View>, q1: seq<Turn>, views2: seq<View>, q2: seq<Turn>, k: TraceKey)
    requires CleanRun(views1, q1, k) && CleanRun(views2, q2, k) && SameHistories(History(q1, k), History(q2, k))
    ensures var t1, t2 := views1[|q1|].file.tables, views2[|q2|].file.tables;
            && TreeOk(t1) && TreeOk(t2) && ByPath(t1) == ByPath(t2)
            && t1.callToNode.Keys == t2.callToNode.Keys && t1.pending == t2.pending && Inversions(t1) == Inversions(t2)
    ensures views1[|q1|].accounts.delivered == views2[|q2|].accounts.delivered
  {
    hide History, ByPath, Inversions, OnePayload, AllCalls, AllFns, DeliverAll, UniqueKeys, Partitioned, InPlace,
         Summed, Populated, InvertedOnce, Aligned, DepthsOk, Quiescent, Shape, Verdicts, CleanRun;
    Followed(views1, q1, k);
    Followed(views2, q2, k);
    OrderIndependence(views1[|q1|].file.tables, History(q1, k), views2[|q2|].file.tables, History(q2, k));
  }

  /** Non-empty histories with the same calls, one payload per call id, and the same functions. */
  ghost predicate SameHistories(h1: seq<Batch>, h2: seq<Batch>) {
    h1 != [] && h2 != [] && AllCalls(h1) == AllCalls(h2) && OnePayload(AllCalls(h1)) && AllFns(h1) == AllFns(h2)
  }

  lemma Followed(views: seq<View>, q: seq<Turn>, k: TraceKey)
    requires CleanRun(views, q, k) && History(q, k) != []
    ensures |views| == |q| + 1 && Recorded(views[|q|].file.tables, History(q, k))
    ensures views[|q|].accounts.delivered == DeliverAll(map[], History(q, k))
    ensures Verdicts(views[|q|].file.tables.anomalies) == 0 && views[|q|].accounts.droppedWall == 0
  {
    hide History, AllFns, DeliverAll, Settled, LosesNothing, ViewOk, Turned;
    UnseenIsOk(views[0]);
    RunFollows(views, q, k);
    ZeroKnown(History(q, k));
  }
}
