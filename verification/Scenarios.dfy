/** Where a plausible claim about the collector fails: exactly when, and one run to see it. */
module Scenarios {
  import opened Wire
  import opened CallTree
  import opened TraceTables
  import opened Refinement
  import opened Aggregate
  import opened Ledger
  import opened TraceStorage
  import opened Lifecycle
  import opened Finalize

  /** Calls of a trace that have no calling context once the batch is recorded. */
  ghost function Stranded(s: Disk, key: TraceKey, batch: Batch): set<nat> {
    Parked(Deliver(AccountsAtKey(s, key).delivered, batch.calls), Prepared(FileAtKey(s, key).tables, batch).dict.Keys)
  }

  lemma StrandedIsParked(s: Disk, s1: Disk, key: TraceKey, batch: Batch, at: int, o: Outcome, indexed: bool)
    requires RecordedTo(s, s1, key, batch, at, o, indexed)
    ensures FileAtKey(s1, key).tables.pending.Keys == Stranded(s, key, batch)
    ensures AccountsAtKey(s1, key).delivered == Deliver(AccountsAtKey(s, key).delivered, batch.calls)
    ensures Settled(FileAtKey(s1, key).tables, AccountsAtKey(s1, key).delivered)
  {
    hide Inv, Quiescent, Deliver, Traced, Reported, Put, PutRow, Parked;
    SettledIsLeastFixpoint(FileAtKey(s1, key).tables, AccountsAtKey(s1, key).delivered);
  }

  lemma FoldedOnlyKeys(t: Tables, d: map<nat, Call>)
    requires Settled(t, d)
    ensures FoldedOnly(t, d).Keys == d.Keys - t.pending.Keys
  {
    hide Inv, Quiescent;
    KnownIsDelivered(t, d);
    ParkedUnfolded(t, d);
  }

  lemma ParkedUnfolded(t: Tables, d: map<nat, Call>)
    requires Inv(t, d)
    ensures forall id :: id in t.pending ==> id !in t.callToNode
  {
  }

  /** A batch whose index commit is lost on an active row that counts nothing pending, then a faultless tick
      once the row is idle: the tick finalizes cleanly and removes the raw batches in any case, and it drops
      exactly the calls that have no context with this batch recorded. So the loss does damage if and only
      if there is such a call. */
  lemma LostCommitLosesRawIff(s: Disk, s1: Disk, key: TraceKey, batch: Batch, at: int, o: Outcome, v': View,
                              now: int, idle: nat, maxPending: nat)
    requires key in s.index && s.index[key].state == Active && s.index[key].pendingCount == 0 && key in s.raw
    requires RecordedTo(s, s1, key, batch, at, o, false)
    requires Ticked(ViewAt(s1, key), v', now, idle, maxPending, NoFault) && now - idle > s.index[key].lastBatchAt
    ensures !v'.hasRaw && v'.file.tables.pending == map[]
    ensures v'.accounts.delivered.Keys == AccountsAtKey(s1, key).delivered.Keys - Stranded(s, key, batch)
    ensures v'.accounts.delivered != AccountsAtKey(s1, key).delivered <==> Stranded(s, key, batch) != {}
  {
    hide Settled, Stranded, FinalizedFile, RecordedFile, FoldedOnly;
    var v := ViewAt(s1, key);
    StrandedIsParked(s, s1, key, batch, at, o, false);
    FoldedOnlyKeys(v.file.tables, v.accounts.delivered);
    TickRemovesRawIff(v, v', now, idle, maxPending, NoFault);
    var fo :| FinalizedView(v, v', Decide(v.row, now, idle, maxPending) == Force, NoFault, fo);
    FinalizeLeavesNothingParked(v.file, v.accounts, v'.file, v'.accounts, true, fo);
    FinalizeKeepsFolded(v.file, v.accounts, v'.file, v'.accounts, true, fo);
    PendingIsDelivered(v.file.tables, v.accounts.delivered);
    KeysDecide(v.accounts.delivered, v'.accounts.delivered);
  }

  lemma FinalizeKeepsFolded(f: TraceFile, a: Accounts, f': TraceFile, a': Accounts, reached: bool, o: FinalizeOutcome)
    requires FinalizedFile(f, a, f', a', reached, o)
    ensures a'.delivered == FoldedOnly(f.tables, a.delivered)
  {
    hide VerdictsOn, FoldedOnly, Total, UnknownAmong;
  }

  lemma PendingIsDelivered(t: Tables, d: map<nat, Call>)
    requires Settled(t, d)
    ensures t.pending.Keys <= d.Keys && forall id :: id in FoldedOnly(t, d) ==> id in d && FoldedOnly(t, d)[id] == d[id]
  {
    hide Inv, Quiescent;
    KnownIsDelivered(t, d);
  }

  lemma KeysDecide(d: map<nat, Call>, d': map<nat, Call>)
    requires forall id :: id in d' ==> id in d && d'[id] == d[id]
    ensures d' == d <==> d'.Keys == d.Keys
  {
  }

  /** A settled trace that only knows one call, whose parent was not delivered, has it parked. */
  lemma OrphanIsParked(t: Tables, c: Call)
    requires Settled(t, map[c.callId := c]) && c.parent != 0 && c.parent != c.callId
    ensures |t.pending| == 1
  {
    hide Inv, Quiescent, HasPath;
    var d := map[c.callId := c];
    SettledIsLeastFixpoint(t, d);
    if c.callId in GroundedIds(d, t.dict.Keys) {
      OrphanHasNoPath(d, t.dict.Keys, c.callId, PathOf(d, t.dict.Keys, c.callId));
    }
    assert t.pending.Keys == {c.callId};
    assert |t.pending.Keys| == |t.pending|;
  }

  lemma OrphanHasNoPath(d: map<nat, Call>, known: set<nat>, id: nat, p: Path)
    requires id in d && d[id].parent != 0 && d[id].parent !in d
    ensures !HasPath(d, known, id, p)
  {
    if p.Under? && p.up.Under? {
      assert !HasPath(d, known, d[id].parent, p.up);
    }
  }

  lemma NothingIsParked(t: Tables)
    requires Settled(t, map[])
    ensures |t.pending| == 0
  {
    hide Inv, Quiescent;
    SettledIsLeastFixpoint(t, map[]);
    assert t.pending == map[];
  }

  const KEY := TraceKey("cd")
  const FIRST := Batch(0, [DictEntry(1, "f", "/x.php", 1, 0)], [])
  const ORPHAN := Call(7, 6, 1, 1, 0, 5, 0, 0, 0, 0, false)
  const SECOND := Batch(0, [], [ORPHAN])

  lemma AfterFirst(s0: Disk, s1: Disk, o: Outcome)
    requires s0 == Disk(map[], map[], map[KEY := 4096], map[], {}) && RecordedTo(s0, s1, KEY, FIRST, 10, o, true)
    ensures KEY in s1.index && s1.index[KEY].pendingCount == 0 && s1.index[KEY].state == Active
    ensures s1.index[KEY].lastBatchAt == 10
    ensures AccountsAtKey(s1, KEY).delivered == map[] && s1.raw == s0.raw
  {
    hide Settled;
    assert FIRST.calls == [];
    PendingCountHeals(s0, s1, KEY, FIRST, 10, o);
    NothingIsParked(FileAtKey(s1, KEY).tables);
  }

  lemma AfterSecond(s1: Disk, s2: Disk, o: Outcome)
    requires AccountsAtKey(s1, KEY).delivered == map[] && RecordedTo(s1, s2, KEY, SECOND, 20, o, false)
    ensures s2.index == s1.index && s2.raw == s1.raw && KEY in s2.files && |FileAtKey(s2, KEY).tables.pending| == 1
  {
    hide Settled;
    var d: map<nat, Call> := map[];
    assert SECOND.calls[..0] == [];
    assert Deliver(d, SECOND.calls) == Deliver(Deliver1(d, ORPHAN), []) == map[7 := ORPHAN];
    OrphanIsParked(FileAtKey(s2, KEY).tables, ORPHAN);
  }

  lemma AfterTick(v: View, v': View)
    requires Ticked(v, v', 1000, 30, 600, NoFault)
    requires v.hasRow && v.row.pendingCount == 0 && v.row.state == Active && v.row.lastBatchAt == 10 && v.hasRaw
    ensures v'.file.tables.pending == map[] && !v'.hasRaw
  {
    hide FinalizedFile;
    TickRemovesRawIff(v, v', 1000, 30, 600, NoFault);
    TickPastCap(v, v', 1000, 30, 600);
  }

  /** A lost index commit can cost parked calls and their raw batches: the second batch parks a call
      but its index commit is lost, so the row still counts nothing pending; the tick takes the clean
      path, drops the call and deletes the batches it could have been decoded from again. */
  method LostCommitLosesRaw() returns (counted: nat, parked: nat, left: nat, rawLeft: bool)
    ensures counted == 0 && parked == 1 && left == 0 && !rawLeft
  {
    hide DiskOk, RecordedTo, Ticked;
    var storage := new Storage.Open();
    RawKeepsOk(storage.OnDisk(), map[KEY := 4096]);
    storage.raw := map[KEY := 4096];
    ghost var s0 := storage.OnDisk();
    var ok, o := storage.RecordBatch(KEY, FIRST, 10, NoFault);
    ghost var s1 := storage.OnDisk();
    AfterFirst(s0, s1, o);
    ok, o := storage.RecordBatch(KEY, SECOND, 20, IndexCommitFails);
    ghost var s2 := storage.OnDisk();
    AfterSecond(s1, s2, o);
    counted, parked := storage.index[KEY].pendingCount, |storage.files[KEY].tables.pending|;
    RunOneTick(storage, 1000, 30, 600, false, map[]);
    AfterTick(ViewAt(s2, KEY), ViewAt(storage.OnDisk(), KEY));
    left := if KEY in storage.files then |storage.files[KEY].tables.pending| else 0;
    rawLeft := KEY in storage.raw;
  }

  // ---- smaller ones, each at one input ----

  const ENTRY := DictEntry(1, "f", "/x.php", 1, 0)
  const TOP := Call(1, 0, 1, 1, 0, 5, 0, 0, 0, 0, false)
  const ONE_CALL := Batch(0, [ENTRY], [TOP])
  const NO_DISK := Disk(map[], map[], map[], map[], {})

  lemma DeliverOne(d: map<nat, Call>, c: Call)
    ensures Deliver(d, [c]) == Deliver1(d, c)
  {
    assert [c][..0] == [];
  }

  lemma RecordedOnce(s: Disk, s': Disk, o: Outcome, indexed: bool)
    requires AccountsAtKey(s, KEY).delivered == map[] && RecordedTo(s, s', KEY, ONE_CALL, 1, o, indexed)
    ensures AccountsAtKey(s', KEY).delivered == map[1 := TOP] && o.callCountDelta == 1
    ensures KEY in s'.files
  {
    hide Settled, Traced, Total, Put, PutRow, Deliver;
    DeliverOne(map[], TOP);
  }

  lemma AfterRetry(s0: Disk, s1: Disk, s2: Disk, o1: Outcome, o2: Outcome)
    requires s0 == NO_DISK && RecordedTo(s0, s1, KEY, ONE_CALL, 1, o1, false)
    requires RecordedTo(s1, s2, KEY, ONE_CALL, 2, o2, true)
    ensures KEY in s2.index && s2.index[KEY].callCount == 0 && KEY in s2.files
    ensures |FileAtKey(s2, KEY).tables.callToNode| + |FileAtKey(s2, KEY).tables.pending| == 1
  {
    hide Settled, Traced, Total, Deliver, Reported, DiskOk;
    RecordedOnce(s0, s1, o1, false);
    RetryCounts(s0, s1, s2, KEY, ONE_CALL, 1, 2, o1, o2, false);
    DeliverOne(map[1 := TOP], TOP);
    SettledIsConsistent(FileAtKey(s2, KEY).tables, AccountsAtKey(s2, KEY).delivered);
    ConsistentSize(FileAtKey(s2, KEY).tables, AccountsAtKey(s2, KEY).delivered);
  }

  /** The first batch of a new trace loses its index commit; the retry creates the row, at zero calls. */
  method RetryDoesNotRepair() returns (counted: nat, held: nat)
    ensures counted == 0 && held == 1
  {
    hide DiskOk, RecordedTo;
    var storage := new Storage.Open();
    ghost var s0 := storage.OnDisk();
    var ok1, o1 := storage.RecordBatch(KEY, ONE_CALL, 1, IndexCommitFails);
    ghost var s1 := storage.OnDisk();
    var ok2, o2 := storage.RecordBatch(KEY, ONE_CALL, 2, NoFault);
    AfterRetry(s0, s1, storage.OnDisk(), o1, o2);
    counted := storage.index[KEY].callCount;
    held := |storage.files[KEY].tables.callToNode| + |storage.files[KEY].tables.pending|;
  }

  lemma CountedOnce(s: Disk, s': Disk, o: Outcome)
    requires s == NO_DISK && RecordedTo(s, s', KEY, ONE_CALL, 1, o, true)
    ensures KEY in s'.index && s'.index[KEY].callCount == 1
  {
    hide RecordedFile;
    RecordedOnce(s, s', o, true);
  }

  /** One call recorded, then a prune that loses its index commit: the row counts a call no file has. */
  method PruneLeavesRowAhead() returns (counted: nat, fileLeft: bool)
    ensures counted == 1 && !fileLeft
  {
    hide DiskOk, RecordedTo;
    var storage := new Storage.Open();
    ghost var s0 := storage.OnDisk();
    var ok, o := storage.RecordBatch(KEY, ONE_CALL, 1, NoFault);
    CountedOnce(s0, storage.OnDisk(), o);
    ok := storage.DeleteTrace(KEY, IndexCommitFails);
    counted, fileLeft := storage.index[KEY].callCount, KEY in storage.files;
  }

  const LATER := Call(2, 0, 1, 1, 0, 5, 0, 0, 0, 0, false)
  const CHILD := Call(3, 2, 1, 2, 1, 4, 0, 0, 0, 0, false)
  const BARE := Batch(0, [], [LATER])
  const WITH_CHILD := Batch(0, [ENTRY], [CHILD, LATER])

  lemma NotGroundedWithout(d: map<nat, Call>, known: set<nat>, id: nat)
    requires id in d && d[id].fnId !in known
    ensures !Grounded(d, known, id)
  {
  }

  lemma LaterWaits(s: Disk, s': Disk, o: Outcome)
    requires s == NO_DISK && RecordedTo(s, s', KEY, BARE, 1, o, true)
    ensures FileAtKey(s', KEY).tables.pending.Keys == {2} && FileAtKey(s', KEY).tables.callToNode == map[]
    ensures ROOT in FileAtKey(s', KEY).tables.nodes
  {
    hide Inv, Quiescent, Traced, Reported, Put, PutRow, Deliver, Grounded;
    var t, d := FileAtKey(s', KEY).tables, AccountsAtKey(s', KEY).delivered;
    DeliverOne(map[], LATER);
    assert BARE.dict == [] && AddEntries(EMPTY.dict, []) == EMPTY.dict;
    assert t.dict.Keys == {0};
    SettledIsLeastFixpoint(t, d);
    NotGroundedWithout(d, {0}, 2);
    assert t.callToNode.Keys == {};
    assert ROOT in t.nodes by { HasRoot(t, d); }
  }

  lemma HasRoot(t: Tables, d: map<nat, Call>)
    requires Settled(t, d)
    ensures ROOT in t.nodes
  {
    hide UniqueKeys, Partitioned, InPlace, Summed, Populated, InvertedOnce, Aligned, DepthsOk, Quiescent;
  }

  lemma ChildHasToPark(s: Disk, s': Disk, o: Outcome)
    requires FileAtKey(s, KEY).tables.pending.Keys == {2} && FileAtKey(s, KEY).tables.callToNode == map[]
    requires RecordedTo(s, s', KEY, WITH_CHILD, 2, o, true)
    ensures o.pendingAdded > 0
  {
    hide Settled, Reported, Put, PutRow, Deliver, DepthsTraced, Arrived, AddEntries;
    var t0 := Prepared(FileAtKey(s, KEY).tables, WITH_CHILD);
    assert !Arrives(t0, WITH_CHILD.calls, 0);
  }

  /** The parent is later in the array and its function known, but it already waits from an earlier batch:
      the loop skips it as a redelivery, so its child is parked. */
  method WaitingParentParks() returns (parked: nat)
    ensures parked > 0
  {
    hide DiskOk, RecordedTo;
    var storage := new Storage.Open();
    ghost var s0 := storage.OnDisk();
    var ok, o := storage.RecordBatch(KEY, BARE, 1, NoFault);
    ghost var s1 := storage.OnDisk();
    LaterWaits(s0, s1, o);
    ok, o := storage.RecordBatch(KEY, WITH_CHILD, 2, NoFault);
    ChildHasToPark(s1, storage.OnDisk(), o);
    parked := o.pendingAdded;
  }

  const STRAY := Call(2, 6, 1, 2, 0, 5, 0, 0, 0, 0, false)
  const STRAYS := Batch(0, [ENTRY], [CHILD, STRAY])

  lemma StraysWait(s: Disk, s': Disk, o: Outcome)
    requires s == NO_DISK && RecordedTo(s, s', KEY, STRAYS, 1, o, true)
    ensures var t := FileAtKey(s', KEY).tables;
            3 in t.pending && t.pending[3] == ToRow(CHILD) && 2 in t.pending && 1 in t.dict
  {
    hide Inv, Quiescent, Traced, Reported, Put, PutRow, Grounded, HasPath;
    var t, d := FileAtKey(s', KEY).tables, AccountsAtKey(s', KEY).delivered;
    assert STRAYS.calls[..1] == [CHILD];
    assert d == Deliver(Deliver1(map[], STRAY), [CHILD]);
    DeliverOne(map[2 := STRAY], CHILD);
    assert 1 in t.dict by { StrayEntry(); }
    SettledIsLeastFixpoint(t, d);
    forall id | id in d
      ensures !Grounded(d, t.dict.Keys, id)
    {
      StraysHaveNoPath(d, t.dict.Keys, id);
    }
  }

  lemma StrayEntry()
    ensures 1 in Prepared(EMPTY, STRAYS).dict
  {
    assert STRAYS.dict[1..] == [];
    assert AddEntries(EMPTY.dict, STRAYS.dict) == AddEntries(AddEntry(EMPTY.dict, ENTRY), []);
  }

  lemma StraysHaveNoPath(d: map<nat, Call>, known: set<nat>, id: nat)
    requires d == map[2 := STRAY, 3 := CHILD] && id in d
    ensures !Grounded(d, known, id)
  {
    hide HasPath;
    forall p
      ensures !HasPath(d, known, 2, p)
    {
      OrphanHasNoPath(d, known, 2, p);
    }
    forall p
      ensures !HasPath(d, known, 3, p)
    {
      ChildHasNoPath(d, known, p);
    }
  }

  lemma ChildHasNoPath(d: map<nat, Call>, known: set<nat>, p: Path)
    requires 3 in d && d[3] == CHILD && forall q :: !HasPath(d, known, 2, q)
    ensures !HasPath(d, known, 3, p)
  {
  }

  lemma VerdictOnChild(s: Disk, s': Disk, o: FinalizeOutcome)
    requires FinalizedTo(s, s', KEY, true, NoFault, o)
    requires var t := FileAtKey(s, KEY).tables; 3 in t.pending && t.pending[3] == ToRow(CHILD) && 1 in t.dict
    ensures KEY in s'.files && PendingParentAtFinalize(3, 2) in FileAtKey(s', KEY).tables.anomalies
  {
    hide FinalizedFile, ClosedRow;
    var t := FileAtKey(s, KEY).tables;
    var rows := FinalizeAppends(s, s', KEY, true, NoFault, o);
    var i :| 0 <= i < |rows| && rows[i].callId == 3;
    VerdictIsOwed(t, rows, i);
    assert rows[i] in rows;
  }

  /** Calls 3 and 2 arrive together, 2 waiting for a call that never comes: the verdict on 3 names 2 as the
      parent that is missing, though it arrived. */
  method MissingParentArrived() returns (verdict: bool)
    ensures verdict
  {
    hide DiskOk, RecordedTo, FinalizedTo;
    var storage := new Storage.Open();
    ghost var s0 := storage.OnDisk();
    var ok, o := storage.RecordBatch(KEY, STRAYS, 1, NoFault);
    ghost var s1 := storage.OnDisk();
    StraysWait(s0, s1, o);
    var done, fo := storage.FinalizeTrace(KEY, true, NoFault);
    VerdictOnChild(s1, storage.OnDisk(), fo);
    verdict := PendingParentAtFinalize(3, 2) in storage.files[KEY].tables.anomalies;
  }
}
