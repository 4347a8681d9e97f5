/** Deliveries whose wire depths do not fit together: two orders of the same calls, recorded by the
    collector, that end with different depth columns. With `Depths.FittingOrdersAgree` this makes `Fits`
    the exact condition for the column to be independent of arrival order. */
module DepthOrders {
  import opened Wire
  import opened CallTree
  import opened TraceTables
  import opened Refinement
  import opened Drain
  import opened Aggregate
  import opened Deliveries
  import opened TraceStorage
  import opened Depths
  import opened Decoder

  /** Call `i` misses the depth a drain would give it, or `i` and `j`, which no drain ever sees, differ. */
  ghost predicate Offends(d: map<nat, Call>, i: nat, j: nat)
    requires i in d && j in d
  {
    !AlignedCall(d, i) || (BothTopOfRoot(d[i], d[j]) && d[i].depth != d[j].depth)
  }

  ghost predicate Offenders(d: map<nat, Call>, known: set<nat>, i: nat, j: nat) {
    i in d && j in d && Grounded(d, known, i) && Grounded(d, known, j) && Offends(d, i, j)
  }

  lemma FitsIffNoOffenders(d: map<nat, Call>, known: set<nat>)
    ensures Fits(d, known) <==> !exists i, j :: Offenders(d, known, i, j)
  {
    hide AlignedCall, BothTopOfRoot, Grounded;
    if !Fits(d, known) {
      var g := Grounding(d, known);
      if id :| id in g && id in d && !AlignedCall(d, id) {
        assert Offenders(d, known, id, id);
      } else {
        var i, j :| i in g && i in d && j in g && j in d && BothTopOfRoot(d[i], d[j]) && d[i].depth != d[j].depth;
        assert Offenders(d, known, i, j);
      }
    }
    if i, j :| Offenders(d, known, i, j) {
      assert i in Grounding(d, known) && j in Grounding(d, known);
    }
  }

  // ---- two batches into a new trace ----

  /** The file `t` of calls `d` became `t'` by recording `batch`. */
  ghost predicate Step(t: Tables, d: map<nat, Call>, batch: Batch, t': Tables, o: Outcome) {
    && Settled(t', Deliver(d, batch.calls)) && t'.dict == Prepared(t, batch).dict
    && Reported(Prepared(t, batch), d, t', Deliver(d, batch.calls), |batch.calls|, o)
    && Traced(Prepared(t, batch), t', Deliver(d, batch.calls), batch.calls, o)
  }

  ghost predicate TwoSteps(b1: Batch, t1: Tables, b2: Batch, t2: Tables) {
    exists o1, o2 :: Step(EMPTY, map[], b1, t1, o1) && Step(t1, Deliver(map[], b1.calls), b2, t2, o2)
  }

  lemma RecordedIsStep(s: Disk, s': Disk, key: TraceKey, batch: Batch, now: int, o: Outcome)
    requires RecordedTo(s, s', key, batch, now, o, true)
    ensures Step(FileAtKey(s, key).tables, AccountsAtKey(s, key).delivered, batch, FileAtKey(s', key).tables, o)
    ensures AccountsAtKey(s', key).delivered == Deliver(AccountsAtKey(s, key).delivered, batch.calls)
  {
    hide Settled, Reported, Traced, Deliver, Prepared;
  }

  const KEY := TraceKey("ab")

  /** Two recordings without faults into an empty store. */
  method RecordTwo(b1: Batch, b2: Batch) returns (ghost t1: Tables, t2: Tables)
    requires FromOne(b1) && FromOne(b2)
    ensures TwoSteps(b1, t1, b2, t2)
  {
    hide DiskOk, RecordedTo, Step, FromOne;
    var storage := new Storage.Open();
    ghost var s0 := storage.OnDisk();
    assert FileAtKey(s0, KEY) == FRESH_FILE && AccountsAtKey(s0, KEY) == FRESH_ACCOUNTS;
    assert forall i :: 0 <= i < |b1.calls| ==> b1.calls[i].callId >= 1 by { Numbered(b1); }
    assert forall i :: 0 <= i < |b2.calls| ==> b2.calls[i].callId >= 1 by { Numbered(b2); }
    var ok1, o1 := storage.RecordBatch(KEY, b1, 1, NoFault);
    ghost var s1 := storage.OnDisk();
    RecordedIsStep(s0, s1, KEY, b1, 1, o1);
    var ok2, o2 := storage.RecordBatch(KEY, b2, 2, NoFault);
    ghost var s2 := storage.OnDisk();
    RecordedIsStep(s1, s2, KEY, b2, 2, o2);
    t1 := FileAtKey(s1, KEY).tables;
    t2 := if KEY in storage.files then storage.files[KEY].tables else EMPTY;
  }

  lemma Numbered(b: Batch)
    requires FromOne(b)
    ensures forall i :: 0 <= i < |b.calls| ==> b.calls[i].callId >= 1
  {
  }

  lemma TwoStepsRecord(b1: Batch, t1: Tables, b2: Batch, t2: Tables)
    requires TwoSteps(b1, t1, b2, t2)
    ensures Recorded(t1, [b1]) && Recorded(t2, [b1, b2])
    ensures DeliverAll(map[], [b1, b2]) == Deliver(Deliver(map[], b1.calls), b2.calls)
    ensures DeliverAll(map[], [b1]) == Deliver(map[], b1.calls)
  {
    hide Settled, Reported, Traced, Deliver, Prepared, DeliverAll, AllFns;
    var o1, o2 :| Step(EMPTY, map[], b1, t1, o1) && Step(t1, Deliver(map[], b1.calls), b2, t2, o2);
    PreparedKeys(EMPTY, b1);
    PreparedKeys(t1, b2);
    Histories(b1, b2);
  }

  lemma Histories(b1: Batch, b2: Batch)
    ensures DeliverAll(map[], [b1]) == Deliver(map[], b1.calls)
    ensures DeliverAll(map[], [b1, b2]) == Deliver(Deliver(map[], b1.calls), b2.calls)
    ensures AllFns([b1]) == Entries(b1.dict) + {0} && AllFns([b1, b2]) == Entries(b1.dict) + Entries(b2.dict) + {0}
    ensures AllCalls([b1, b2]) == CallSet(b1.calls) + CallSet(b2.calls)
  {
    hide Deliver, Entries, CallSet;
    var d := Deliver(map[], b1.calls);
    assert [b1][1..] == [] && [b1, b2][1..] == [b2] && [b2][1..] == [];
    assert DeliverAll(d, [b2]) == DeliverAll(Deliver(d, b2.calls), []);
    assert AllFns([b2]) == Entries(b2.dict) + AllFns([]) && AllCalls([b2]) == CallSet(b2.calls) + AllCalls([]);
  }

  // ---- everything on arrival ----

  /** The call before `j` is a child of call `j`. */
  ghost predicate Linked(chain: seq<Call>, j: nat)
    requires 1 <= j < |chain|
  {
    chain[j - 1].parent == chain[j].callId && chain[j - 1].parent != 0
  }

  /** `chain` leads from a call up to a top-level one, with every function known. */
  ghost predicate IsChain(chain: seq<Call>, known: set<nat>) {
    && chain != []
    && (forall i :: 0 <= i < |chain| ==> chain[i].fnId in known)
    && (forall j :: 1 <= j < |chain| ==> Linked(chain, j))
    && chain[|chain| - 1].parent == 0
  }

  ghost function ChainPath(chain: seq<Call>, i: nat): Path
    requires i <= |chain|
    decreases |chain| - i
  {
    if i == |chain| then Top else Under(ChainPath(chain, i + 1), chain[i].fnId)
  }

  lemma {:induction false} ChainPathLength(chain: seq<Call>, i: nat)
    requires i <= |chain|
    ensures ChainPath(chain, i).Length() == |chain| - i
    decreases |chain| - i
  {
    if i < |chain| {
      ChainPathLength(chain, i + 1);
    }
  }

  /** `d` has the calls of `chain`. */
  ghost predicate Holds(d: map<nat, Call>, calls: seq<Call>) {
    forall i :: 0 <= i < |calls| ==> calls[i].callId in d && d[calls[i].callId] == calls[i]
  }

  lemma {:induction false} ChainHasPath(d: map<nat, Call>, known: set<nat>, chain: seq<Call>, i: nat)
    requires IsChain(chain, known) && Holds(d, chain) && i < |chain|
    ensures HasPath(d, known, chain[i].callId, ChainPath(chain, i))
    decreases |chain| - i
  {
    if i + 1 < |chain| {
      assert Linked(chain, i + 1);
      ChainHasPath(d, known, chain, i + 1);
    }
  }

  /** The loop meets the chain's calls from the top down, so each arrives after its parent. */
  lemma ChainInOrder(t0: Tables, chain: seq<Call>)
    requires IsChain(chain, t0.dict.Keys) && t0.pending == map[]
    ensures InOrder(t0, chain, 0)
  {
    forall j | 0 <= j < |chain|
      ensures Arrives(t0, chain, j)
    {
      if j + 1 < |chain| {
        assert Linked(chain, j + 1);
        assert chain[j + 1..][0] == chain[j + 1];
        assert chain[j].parent in Ids(chain[j + 1..]);
      }
    }
  }

  /** Where nothing waits and nothing is drained, every row but the root is made by a call on arrival. */
  lemma ArrivalRows(t0: Tables, t: Tables, d: map<nat, Call>, calls: seq<Call>, o: Outcome, n: nat)
    requires Traced(t0, t, d, calls, o) && o.pendingAdded == 0 && t0.pending == map[]
    requires n in t.nodes && n !in t0.nodes
    ensures exists id :: id in t.callToNode && id in d && t.callToNode[id] == n && t.nodes[n].depth == d[id].depth
  {
    hide Inv, InOrder, FoldsAt, Arrived;
    var mid, depths :| DepthsTraced(t0, mid, t, d, depths) && mid.pending == t0.pending;
    assert depths.Keys == {};
    assert n in mid.nodes;
    assert MadeOnArrival(t0, mid, d, n);
  }

  lemma PreparedEmpty(b: Batch)
    ensures var t0 := Prepared(EMPTY, b);
            t0.pending == map[] && t0.callToNode == map[] && t0.nodes.Keys == {ROOT}
    ensures Prepared(EMPTY, b).dict.Keys == Entries(b.dict) + {0}
  {
    PreparedKeys(EMPTY, b);
  }

  lemma BatchIsHeld(d: map<nat, Call>, calls: seq<Call>)
    requires OnePayload(CallSet(calls)) && Records(d, CallSet(calls))
    ensures Holds(d, calls)
  {
    forall i | 0 <= i < |calls|
      ensures calls[i].callId in d && d[calls[i].callId] == calls[i]
    {
      assert calls[i] in CallSet(calls);
    }
  }

  lemma Delivered(calls: seq<Call>)
    ensures Records(Deliver(map[], calls), CallSet(calls))
  {
    hide Records, CallSet;
    NothingRecorded();
    DeliverRecords(map[], calls, {});
    assert {} + CallSet(calls) == CallSet(calls);
  }

  lemma ChainFolds(t: Tables, d: map<nat, Call>, chain: seq<Call>, i: nat)
    requires Settled(t, d) && IsChain(chain, t.dict.Keys) && Holds(d, chain) && i < |chain|
    ensures chain[i].callId in t.callToNode && t.callToNode[chain[i].callId] in t.nodes
    ensures NodePath(t.nodes, t.callToNode[chain[i].callId]) == ChainPath(chain, i)
  {
    hide Shape, UniqueKeys, InPlace, Partitioned, Summed, Populated, InvertedOnce, Aligned, DepthsOk, Quiescent,
         NodePath, HasPath, ChainPath, IsChain, Holds;
    var id := chain[i].callId;
    ChainHasPath(d, t.dict.Keys, chain, i);
    GroundedIsFolded(t, d, id, ChainPath(chain, i));
    FoldedHasPath(t, d, id);
    PathUnique(d, t.dict.Keys, id, ChainPath(chain, i), NodePath(t.nodes, t.callToNode[id]));
  }

  lemma StepIsSettled(t: Tables, d: map<nat, Call>, batch: Batch, t': Tables, o: Outcome)
    requires Step(t, d, batch, t', o)
    ensures Settled(t', Deliver(d, batch.calls)) && t'.dict == Prepared(t, batch).dict && ROOT in t'.nodes
  {
    hide UniqueKeys, InPlace, Partitioned, Summed, Populated, InvertedOnce, Aligned, DepthsOk, Quiescent, Traced,
         Reported, Deliver, Prepared;
  }

  /** Every call of a chain delivered first makes its own row, at its wire depth. */
  lemma EagerRow(b: Batch, t: Tables, o: Outcome, i: nat)
    requires Step(EMPTY, map[], b, t, o) && IsChain(b.calls, Entries(b.dict) + {0}) && OnePayload(CallSet(b.calls))
    requires i < |b.calls|
    ensures b.calls[i].callId in t.callToNode && t.callToNode[b.calls[i].callId] in t.nodes
    ensures t.nodes[t.callToNode[b.calls[i].callId]].depth == b.calls[i].depth
  {
    hide Step, Settled, IsChain, OnePayload, CallSet, Entries, Deliver, NodePath, Holds, Records, ChainPath;
    var chain, d := b.calls, Deliver(map[], b.calls);
    StepIsSettled(EMPTY, map[], b, t, o);
    PreparedEmpty(b);
    Delivered(chain);
    BatchIsHeld(d, chain);
    ChainFolds(t, d, chain, i);
    var n := t.callToNode[chain[i].callId];
    ChainPathLength(chain, i);
    NotTheRoot(t, d, n, ChainPath(chain, i));
    var id := MadeByArrival(b, t, o, n);
    AloneInRow(t, d, chain, i, id);
  }

  lemma MadeByArrival(b: Batch, t: Tables, o: Outcome, n: nat) returns (id: nat)
    requires Step(EMPTY, map[], b, t, o) && IsChain(b.calls, Entries(b.dict) + {0}) && n in t.nodes && n != ROOT
    ensures var d := Deliver(map[], b.calls);
            id in t.callToNode && id in d && t.callToNode[id] == n && t.nodes[n].depth == d[id].depth
  {
    hide Settled, Reported, Traced, IsChain, Entries, Prepared, Deliver, InOrder;
    var t0, d := Prepared(EMPTY, b), Deliver(map[], b.calls);
    PreparedEmpty(b);
    ChainInOrder(t0, b.calls);
    NothingAdded(t0, t, d, b.calls, o);
    ArrivalRows(t0, t, d, b.calls, o, n);
    id :| id in t.callToNode && id in d && t.callToNode[id] == n && t.nodes[n].depth == d[id].depth;
  }

  /** Calls of a chain have rows of their own. */
  lemma AloneInRow(t: Tables, d: map<nat, Call>, chain: seq<Call>, i: nat, id: nat)
    requires Settled(t, d) && IsChain(chain, t.dict.Keys) && Holds(d, chain) && Records(d, CallSet(chain))
    requires i < |chain|
    requires id in d && id in t.callToNode && chain[i].callId in t.callToNode
    requires t.callToNode[id] == t.callToNode[chain[i].callId]
    ensures d[id] == chain[i]
  {
    hide Settled, IsChain, CallSet, NodePath, Holds, Records, ChainPath;
    var j := RecordedAt(d, chain, id);
    ChainFolds(t, d, chain, i);
    ChainFolds(t, d, chain, j);
    ChainPathLength(chain, i);
    ChainPathLength(chain, j);
  }

  lemma NothingAdded(t0: Tables, t: Tables, d: map<nat, Call>, calls: seq<Call>, o: Outcome)
    requires Traced(t0, t, d, calls, o) && InOrder(t0, calls, 0)
    ensures o.pendingAdded == 0
  {
    hide InOrder, DepthsTraced, Arrived;
  }

  lemma NotTheRoot(t: Tables, d: map<nat, Call>, n: nat, p: Path)
    requires Settled(t, d) && n in t.nodes && NodePath(t.nodes, n) == p && p.Length() > 0
    ensures n != ROOT
  {
    hide UniqueKeys, InPlace, Partitioned, Summed, Populated, InvertedOnce, Aligned, DepthsOk, Quiescent;
  }

  lemma RecordedAt(d: map<nat, Call>, calls: seq<Call>, id: nat) returns (j: nat)
    requires Records(d, CallSet(calls)) && id in d
    ensures j < |calls| && calls[j].callId == id && d[id] == calls[j]
  {
    j :| j < |calls| && calls[j] == d[id];
  }

  /** What was folded stays where and at the depth it was. */
  lemma StepKeeps(t: Tables, d: map<nat, Call>, batch: Batch, t': Tables, o: Outcome)
    requires Step(t, d, batch, t', o) && ROOT in t.nodes
    ensures KeepsDepths(t.nodes, t'.nodes)
    ensures forall id :: id in t.callToNode ==> id in t'.callToNode && t'.callToNode[id] == t.callToNode[id]
  {
    hide Settled, Reported, Deliver, Inv, InOrder, FoldsAt, Arrived, AddEntries, MadeByDrain, MadeOnArrival;
    var t0 := Prepared(t, batch);
    assert t0.nodes == t.nodes && t0.callToNode == t.callToNode;
    var mid, depths :| DepthsTraced(t0, mid, t', Deliver(d, batch.calls), depths);
  }

  /** A chain of calls first, then the whole set: the column has the chain's wire depths. */
  lemma EagerColumn(b1: Batch, t1: Tables, b2: Batch, t2: Tables, i: nat)
    requires TwoSteps(b1, t1, b2, t2) && b2.dict == [] && i < |b1.calls|
    requires IsChain(b1.calls, Entries(b1.dict) + {0}) && OnePayload(CallSet(b1.calls))
    ensures TreeOk(t2) && ChainPath(b1.calls, i) in Column(t2)
    ensures Column(t2)[ChainPath(b1.calls, i)] == b1.calls[i].depth
  {
    hide Inv, Quiescent, IsChain, OnePayload, CallSet, Entries, Prepared, Deliver, NodePath, Holds, Records, ChainPath,
         Column, TreeOk, Traced, Reported;
    var chain, d1 := b1.calls, Deliver(map[], b1.calls);
    var d2 := Deliver(d1, b2.calls);
    var o1, o2 :| Step(EMPTY, map[], b1, t1, o1) && Step(t1, d1, b2, t2, o2);
    var id := chain[i].callId;
    StepIsSettled(EMPTY, map[], b1, t1, o1);
    StepIsSettled(t1, d1, b2, t2, o2);
    EagerRow(b1, t1, o1, i);
    StepKeeps(t1, d1, b2, t2, o2);
    assert t2.nodes[t2.callToNode[id]].depth == chain[i].depth by { KeptDepth(t1, t2, t1.callToNode[id]); }
    PreparedEmpty(b1);
    PreparedKeys(t1, b2);
    assert t2.dict.Keys == Entries(b1.dict) + {0} by { NoEntries(); }
    Delivered(chain);
    BatchIsHeld(d1, chain);
    HeldStays(d1, chain, b2.calls);
    ChainFolds(t2, d2, chain, i);
    SettledTree(t2, d2);
    ColumnAt(t2, t2.callToNode[id]);
  }

  lemma KeptDepth(t: Tables, t': Tables, n: nat)
    requires KeepsDepths(t.nodes, t'.nodes) && n in t.nodes
    ensures n in t'.nodes && t'.nodes[n].depth == t.nodes[n].depth
  {
  }

  lemma NoEntries()
    ensures Entries([]) == {}
  {
  }

  lemma HeldStays(d: map<nat, Call>, held: seq<Call>, calls: seq<Call>)
    requires Holds(d, held)
    ensures Holds(Deliver(d, calls), held)
  {
    hide Deliver;
    DeliverKeeps(d, calls);
  }

  lemma SettledTree(t: Tables, d: map<nat, Call>)
    requires Settled(t, d)
    ensures TreeOk(t) && t.nodes[ROOT].depth == 0
  {
    hide UniqueKeys, InPlace, Partitioned, Summed, Populated, InvertedOnce, Aligned, DepthsOk, Quiescent;
  }

  // ---- everything out of the parked rows ----

  ghost predicate NoneTopOfRoot(d: map<nat, Call>) {
    forall id :: id in d ==> !TopOfRoot(d[id].parent, d[id].fnId)
  }

  /** With only the root's function known, a context leads to a call no drain ever sees. */
  lemma {:induction false} NoPathWithoutTop(d: map<nat, Call>, id: nat, p: Path)
    requires NoneTopOfRoot(d) && HasPath(d, {0}, id, p)
    ensures false
    decreases p
  {
    if d[id].parent != 0 {
      NoPathWithoutTop(d, d[id].parent, p.up);
    }
  }

  /** Such calls, delivered before any dictionary entry, all wait. */
  lemma AllWait(b: Batch, t: Tables, o: Outcome)
    requires Step(EMPTY, map[], b, t, o) && b.dict == [] && NoneTopOfRoot(Deliver(map[], b.calls))
    ensures t.callToNode == map[] && t.nodes.Keys == {ROOT} && t.pending.Keys == Deliver(map[], b.calls).Keys
    ensures t.dict.Keys == {0}
  {
    hide Inv, Quiescent, Prepared, Deliver, Traced, Reported, NoneTopOfRoot, HasPath;
    var d := Deliver(map[], b.calls);
    PreparedEmpty(b);
    NoEntries();
    assert t.dict.Keys == {0};
    SettledIsLeastFixpoint(t, d);
    forall id | id in d
      ensures !Grounded(d, {0}, id)
    {
      if Grounded(d, {0}, id) {
        NoPathWithoutTop(d, id, PathOf(d, {0}, id));
      }
    }
    assert t.callToNode.Keys == {};
    OnlyTheRoot(t, d);
    assert t.pending.Keys == d.Keys by { KnownIsDelivered(t, d); }
  }

  lemma OnlyTheRoot(t: Tables, d: map<nat, Call>)
    requires Inv(t, d) && t.callToNode.Keys == {}
    ensures t.nodes.Keys == {ROOT}
  {
    hide UniqueKeys, Partitioned, InPlace, InvertedOnce, Aligned, DepthsOk, NodeCalls, ChildCalls, Total, Summed,
         Populated;
    forall n | n in t.nodes
      ensures n == ROOT
    {
      if n != ROOT {
        var id := BucketHasCall(d, t.nodes, t.callToNode, n);
      }
    }
  }

  ghost predicate BelowRoot(t: Tables, n: nat) {
    n in t.nodes && t.nodes[n].parent == ROOT && t.nodes[n].fnId == 0
  }

  /** The drain from `mid` to `t` starts with no rows but the root and the row of the calls no drain sees. */
  ghost predicate BareDrain(mid: Tables, t: Tables, d: map<nat, Call>, depths: map<nat, nat>) {
    && Inv(mid, d) && Inv(t, d) && Progress(mid, t) && DepthLog(mid, t, depths)
    && forall n :: n in mid.nodes && n != ROOT ==> BelowRoot(t, n)
  }

  lemma BareStart(t0: Tables, mid: Tables, t: Tables, d: map<nat, Call>, depths: map<nat, nat>)
    requires DepthsTraced(t0, mid, t, d, depths) && Inv(t, d) && t0.nodes.Keys == {ROOT}
    requires forall id :: id in d ==> id in t0.pending || TopOfRoot(d[id].parent, d[id].fnId)
    ensures BareDrain(mid, t, d, depths)
  {
    hide UniqueKeys, Shape, Partitioned, Summed, Populated, InvertedOnce, Aligned, DepthsOk, Quiescent, DepthLog,
         KnownStay;
    forall n | n in mid.nodes && n != ROOT
      ensures BelowRoot(t, n)
    {
      assert MadeOnArrival(t0, mid, d, n);
      var id :| id in mid.callToNode && id in d && mid.callToNode[id] == n && id !in t0.pending;
      assert RowFor(d[id], t.nodes, t.callToNode, n);
    }
  }

  /** A drained call lands in a row made by the drain. */
  lemma DrainedRow(mid: Tables, t: Tables, d: map<nat, Call>, depths: map<nat, nat>, id: nat)
    requires BareDrain(mid, t, d, depths) && id in depths
    ensures id in d && id in t.callToNode && mid.pending[id].parent == d[id].parent
    ensures RowFor(d[id], t.nodes, t.callToNode, t.callToNode[id]) && t.callToNode[id] !in mid.nodes
  {
    hide UniqueKeys, Shape, Summed, Populated, InvertedOnce, Aligned, DepthsOk, KeepsDepths, FoldsAt, MadeByDrain;
    assert id in mid.pending && id !in t.pending;
    assert RowFor(d[id], t.nodes, t.callToNode, t.callToNode[id]);
    RootTakesNoCall(t, d, d[id].parent);
  }

  lemma ParentBelow(t: Tables, d: map<nat, Call>, id: nat)
    requires Inv(t, d) && id in t.callToNode && id in d && RowFor(d[id], t.nodes, t.callToNode, t.callToNode[id])
    ensures t.callToNode[id] in t.nodes && t.nodes[t.callToNode[id]].parent in t.nodes
    ensures t.nodes[t.callToNode[id]].parent < t.callToNode[id]
    ensures t.nodes[t.callToNode[id]].parent
         == if d[id].parent == 0 then ROOT else if d[id].parent in t.callToNode then t.callToNode[d[id].parent] else 0
  {
    hide UniqueKeys, Partitioned, InPlace, Summed, Populated, InvertedOnce, Aligned, DepthsOk;
  }

  /** It was folded one deeper than the row above ends up. */
  lemma {:induction false} DrainedDepth(mid: Tables, t: Tables, d: map<nat, Call>, depths: map<nat, nat>, id: nat)
    requires BareDrain(mid, t, d, depths) && id in depths
    ensures id in t.callToNode && t.callToNode[id] in t.nodes && t.nodes[t.callToNode[id]].parent in t.nodes
    ensures depths[id] == t.nodes[t.nodes[t.callToNode[id]].parent].depth + 1
    decreases if id in t.callToNode then t.callToNode[id] else 0
  {
    hide Inv, RowFor, Shape, TreeOk, MadeByDrain, FoldsAt, BelowRoot;
    DrainedRow(mid, t, d, depths, id);
    ParentBelow(t, d, id);
    var parent, above := d[id].parent, t.nodes[t.callToNode[id]].parent;
    LoggedDepth(mid, t, depths, id);
    if parent == 0 || parent in mid.callToNode {
      OldSource(mid, t, d, depths, parent);
    } else {
      DrainedDepth(mid, t, d, depths, parent);
      DrainedRow(mid, t, d, depths, parent);
      assert MadeByDrain(t, depths, above);
      var twin := MakerOf(t, depths, above);
      DrainedDepth(mid, t, d, depths, twin);
    }
  }

  lemma LoggedDepth(mid: Tables, t: Tables, depths: map<nat, nat>, id: nat)
    requires DepthLog(mid, t, depths) && id in depths
    ensures id in mid.pending && Anchored(mid, depths, mid.pending[id].parent)
    ensures depths[id] == SourceDepth(mid, depths, mid.pending[id].parent) + 1
  {
    hide SourceDepth, KeepsDepths, MadeByDrain;
  }

  lemma MakerOf(t: Tables, depths: map<nat, nat>, n: nat) returns (id: nat)
    requires MadeByDrain(t, depths, n)
    ensures id in depths && id in t.callToNode && t.callToNode[id] == n && n in t.nodes
    ensures t.nodes[n].depth == depths[id]
  {
    id :| id in depths && id in t.callToNode && t.callToNode[id] == n && n in t.nodes && t.nodes[n].depth == depths[id];
  }

  lemma OldSource(mid: Tables, t: Tables, d: map<nat, Call>, depths: map<nat, nat>, parent: nat)
    requires BareDrain(mid, t, d, depths) && (parent == 0 || parent in mid.callToNode)
    ensures var row := if parent == 0 then ROOT else mid.callToNode[parent];
            row in t.nodes && SourceDepth(mid, depths, parent) == t.nodes[row].depth
    ensures parent != 0 ==> parent in t.callToNode && t.callToNode[parent] == mid.callToNode[parent]
  {
    hide Inv, FoldsAt, MadeByDrain, BelowRoot;
    FoldedRowsInTree(mid, d);
  }

  /** Calls no drain sees aside, deliver everything but the dictionary first: then every row is one deeper
      than the row above. */
  lemma WaitingColumn(b1: Batch, t1: Tables, b2: Batch, t2: Tables, p: Path)
    requires TwoSteps(b1, t1, b2, t2) && b1.dict == [] && NoneTopOfRoot(Deliver(map[], b1.calls))
    requires var d := Deliver(Deliver(map[], b1.calls), b2.calls);
             forall id :: id in d ==> id in Deliver(map[], b1.calls) || TopOfRoot(d[id].parent, d[id].fnId)
    requires TreeOk(t2) && p in Column(t2) && p.Under? && p != Under(Top, 0)
    ensures p.up in Column(t2) && Column(t2)[p] == Column(t2)[p.up] + 1
  {
    hide Inv, Quiescent, Prepared, Deliver, Reported, NodePath, Column, TreeOk, NoneTopOfRoot, InOrder,
         DepthsTraced, Arrived, BelowRoot, MadeByDrain;
    var d1 := Deliver(map[], b1.calls);
    var d := Deliver(d1, b2.calls);
    var o1, o2 :| Step(EMPTY, map[], b1, t1, o1) && Step(t1, d1, b2, t2, o2);
    AllWait(b1, t1, o1);
    var t0 := Prepared(t1, b2);
    assert t0.nodes == t1.nodes && t0.pending == t1.pending by { PreparedKeeps(t1, b2); }
    var mid, depths :| DepthsTraced(t0, mid, t2, d, depths);
    BareStart(t0, mid, t2, d, depths);
    var n := NodeOf(t2, p);
    PathStep(t2, n);
    ColumnAt(t2, n);
    ColumnAt(t2, t2.nodes[n].parent);
    assert n !in mid.nodes by { NotBelowRoot(mid, t2, d, depths, n); }
    assert MadeByDrain(t2, depths, n);
    var id := MakerOf(t2, depths, n);
    DrainedDepth(mid, t2, d, depths, id);
  }

  lemma PreparedKeeps(t: Tables, b: Batch)
    requires ROOT in t.nodes
    ensures Prepared(t, b).nodes == t.nodes && Prepared(t, b).pending == t.pending
  {
    hide AddEntries;
  }

  lemma PathStep(t: Tables, n: nat)
    requires TreeOk(t) && n in t.nodes && NodePath(t.nodes, n).Under?
    ensures n != ROOT && t.nodes[n].parent in t.nodes
    ensures NodePath(t.nodes, n) == Under(NodePath(t.nodes, t.nodes[n].parent), t.nodes[n].fnId)
    ensures NodePath(t.nodes, ROOT) == Top
  {
    hide UniqueKeys;
  }

  lemma NotBelowRoot(mid: Tables, t: Tables, d: map<nat, Call>, depths: map<nat, nat>, n: nat)
    requires BareDrain(mid, t, d, depths) && TreeOk(t) && n in t.nodes
    requires NodePath(t.nodes, n).Under? && NodePath(t.nodes, n) != Under(Top, 0)
    ensures n !in mid.nodes
  {
    hide Inv, DepthLog, Progress, TreeOk, NodePath;
    PathStep(t, n);
  }

  // ---- the two orders ----

  method FindCall(calls: seq<Call>, id: nat) returns (c: Call)
    requires exists i :: 0 <= i < |calls| && calls[i].callId == id
    ensures c in CallSet(calls) && c.callId == id
  {
    var i := 0;
    while calls[i].callId != id
      invariant 0 <= i < |calls| && forall j :: 0 <= j < i ==> calls[j].callId != id
      decreases |calls| - i
    {
      i := i + 1;
    }
    c := calls[i];
  }

  lemma RecordedIsListed(d: map<nat, Call>, calls: seq<Call>, id: nat)
    requires Records(d, CallSet(calls)) && id in d
    ensures exists i :: 0 <= i < |calls| && calls[i].callId == id
    ensures OnePayload(CallSet(calls)) ==> forall c :: c in CallSet(calls) && c.callId == id ==> d[id] == c
  {
    var j := RecordedAt(d, calls, id);
    assert calls[j] in CallSet(calls);
  }

  /** Walk from call `id` to the top. */
  method ChainOf(calls: seq<Call>, id: nat, ghost d: map<nat, Call>, ghost known: set<nat>, ghost p: Path)
    returns (chain: seq<Call>)
    requires Records(d, CallSet(calls)) && OnePayload(CallSet(calls)) && HasPath(d, known, id, p)
    ensures IsChain(chain, known) && chain[0].callId == id && CallSet(chain) <= CallSet(calls) && Holds(d, chain)
    decreases p
  {
    hide Records, OnePayload, CallSet, IsChain, Holds;
    RecordedIsListed(d, calls, id);
    var c := FindCall(calls, id);
    if c.parent == 0 {
      chain := [c];
      ChainAlone(d, c, known);
    } else {
      var rest := ChainOf(calls, c.parent, d, known, p.up);
      chain := [c] + rest;
      ChainGrows(d, c, rest, known);
    }
  }

  lemma ChainAlone(d: map<nat, Call>, c: Call, known: set<nat>)
    requires c.parent == 0 && c.fnId in known && c.callId in d && d[c.callId] == c
    ensures IsChain([c], known) && Holds(d, [c]) && CallSet([c]) == {c}
  {
    CallSetPrepend(c, []);
    NoCalls();
    assert [c] + [] == [c];
  }

  lemma ChainGrows(d: map<nat, Call>, c: Call, rest: seq<Call>, known: set<nat>)
    requires IsChain(rest, known) && Holds(d, rest) && rest[0].callId == c.parent != 0
    requires c.fnId in known && c.callId in d && d[c.callId] == c
    ensures IsChain([c] + rest, known) && Holds(d, [c] + rest) && CallSet([c] + rest) == CallSet(rest) + {c}
    ensures rest != []
  {
    hide CallSet;
    CallSetPrepend(c, rest);
    var all := [c] + rest;
    forall j | 1 <= j < |all|
      ensures Linked(all, j)
    {
      assert all[j] == rest[j - 1];
      if j > 1 {
        assert all[j - 1] == rest[j - 2] && Linked(rest, j - 1);
      }
    }
    forall i | 0 <= i < |all|
      ensures all[i].fnId in known && all[i].callId in d && d[all[i].callId] == all[i]
    {
      assert i > 0 ==> all[i] == rest[i - 1];
    }
    assert all[|all| - 1] == rest[|rest| - 1];
  }

  lemma NoCalls()
    ensures CallSet([]) == {}
  {
  }

  lemma CallSetPrepend(c: Call, calls: seq<Call>)
    ensures CallSet([c] + calls) == CallSet(calls) + {c}
  {
    var all := [c] + calls;
    forall x | x in CallSet(calls) + {c}
      ensures x in CallSet(all)
    {
      if x in CallSet(calls) {
        var i :| 0 <= i < |calls| && calls[i] == x;
        assert all[i + 1] == x;
      } else {
        assert all[0] == c;
      }
    }
  }

  /** The calls a drain can see. */
  function Waiting(calls: seq<Call>): seq<Call> {
    if calls == [] then []
    else (if TopOfRoot(calls[0].parent, calls[0].fnId) then [] else [calls[0]]) + Waiting(calls[1..])
  }

  lemma {:induction false} WaitingSet(calls: seq<Call>)
    ensures forall c :: c in CallSet(Waiting(calls)) <==> c in CallSet(calls) && !TopOfRoot(c.parent, c.fnId)
    ensures forall i :: 0 <= i < |Waiting(calls)| ==> Waiting(calls)[i] in CallSet(calls)
  {
    hide CallSet, TopOfRoot;
    if calls == [] {
      NoCalls();
    } else {
      WaitingSet(calls[1..]);
      assert calls == [calls[0]] + calls[1..];
      CallSetPrepend(calls[0], calls[1..]);
      CallSetPrepend(calls[0], Waiting(calls[1..]));
      assert [] + Waiting(calls[1..]) == Waiting(calls[1..]);
      forall i | 0 <= i < |Waiting(calls)|
        ensures Waiting(calls)[i] in CallSet(calls)
      {
        assert Waiting(calls)[i] == calls[0] || Waiting(calls)[i] in Waiting(calls[1..]);
      }
    }
  }

  lemma WaitingDelivered(calls: seq<Call>)
    requires OnePayload(CallSet(calls))
    ensures NoneTopOfRoot(Deliver(map[], Waiting(calls)))
    ensures var d1 := Deliver(map[], Waiting(calls));
            var d := Deliver(d1, calls);
            forall id :: id in d ==> id in d1 || TopOfRoot(d[id].parent, d[id].fnId)
  {
    hide CallSet, Waiting, Deliver, OnePayload, TopOfRoot;
    WaitingSet(calls);
    Delivered(Waiting(calls));
    DeliverRecords(Deliver(map[], Waiting(calls)), calls, CallSet(Waiting(calls)));
  }

  /** Both orders are recorded histories of the same calls and functions. */
  lemma BothRecorded(b1: Batch, t1: Tables, b2: Batch, t2: Tables, calls: seq<Call>, entries: seq<DictEntry>)
    requires TwoSteps(b1, t1, b2, t2) && b2.calls == calls && CallSet(b1.calls) <= CallSet(calls)
    requires (b1.dict == entries && b2.dict == []) || (b1.dict == [] && b2.dict == entries)
    ensures Recorded(t2, [b1, b2]) && AllCalls([b1, b2]) == CallSet(calls) && AllFns([b1, b2]) == Entries(entries) + {0}
  {
    hide TwoSteps, Recorded, CallSet, Entries, AllCalls, AllFns;
    TwoStepsRecord(b1, t1, b2, t2);
    Histories(b1, b2);
    NoEntries();
  }

  /** The offending call first, against the twin: the row of both has the depth of whichever came first. */
  lemma TwinsDisagree(chain1: seq<Call>, chain2: seq<Call>, col1: map<Path, nat>, col2: map<Path, nat>, known: set<nat>)
    requires IsChain(chain1, known) && IsChain(chain2, known) && BothTopOfRoot(chain1[0], chain2[0])
    requires chain1[0].depth != chain2[0].depth
    requires ChainPath(chain1, 0) in col1 && col1[ChainPath(chain1, 0)] == chain1[0].depth
    requires ChainPath(chain2, 0) in col2 && col2[ChainPath(chain2, 0)] == chain2[0].depth
    ensures col1 != col2
  {
    TopChain(chain1, known);
    TopChain(chain2, known);
  }

  lemma TopChain(chain: seq<Call>, known: set<nat>)
    requires IsChain(chain, known)
    ensures chain[0].parent == 0 <==> |chain| == 1
    ensures ChainPath(chain, 0) == Under(ChainPath(chain, 1), chain[0].fnId)
    ensures |chain| == 1 ==> ChainPath(chain, 1) == Top
    ensures |chain| > 1 ==> ChainPath(chain, 1).Under? && chain[0].parent == chain[1].callId
  {
    if |chain| > 1 {
      assert Linked(chain, 1);
    }
  }

  /** The offending call on arrival, against the same call out of the parked rows. */
  lemma ArrivalAndDrainDisagree(d: map<nat, Call>, known: set<nat>, chain: seq<Call>, col1: map<Path, nat>,
                                col2: map<Path, nat>)
    requires IsChain(chain, known) && Holds(d, chain) && !AlignedCall(d, chain[0].callId)
    requires forall i :: 0 <= i < |chain| ==> ChainPath(chain, i) in col1 && col1[ChainPath(chain, i)] == chain[i].depth
    requires Top in col1 && col1[Top] == 0
    requires forall p: Path :: p in col2 && p.Under? && p != Under(Top, 0) ==> p.up in col2 && col2[p] == col2[p.up] + 1
    ensures col1 != col2
  {
    hide ChainPath;
    TopChain(chain, known);
  }

  lemma TopDepth(t: Tables, d: map<nat, Call>)
    requires Settled(t, d)
    ensures TreeOk(t) && Top in Column(t) && Column(t)[Top] == 0
  {
    hide UniqueKeys, InPlace, Partitioned, Summed, Populated, InvertedOnce, Aligned, DepthsOk, Quiescent, Column;
    ColumnAt(t, ROOT);
  }

  lemma EagerColumns(b1: Batch, t1: Tables, b2: Batch, t2: Tables, calls: seq<Call>, entries: seq<DictEntry>)
    requires TwoSteps(b1, t1, b2, t2) && b1.dict == entries && b2 == Batch(0, [], calls)
    requires CallSet(b1.calls) <= CallSet(calls)
    requires IsChain(b1.calls, Entries(entries) + {0}) && OnePayload(CallSet(calls))
    ensures TreeOk(t2) && Top in Column(t2) && Column(t2)[Top] == 0
    ensures forall i :: 0 <= i < |b1.calls| ==>
      ChainPath(b1.calls, i) in Column(t2) && Column(t2)[ChainPath(b1.calls, i)] == b1.calls[i].depth
  {
    hide TwoSteps, Settled, IsChain, Column, TreeOk, CallSet, Entries, ChainPath, DeliverAll;
    TwoStepsRecord(b1, t1, b2, t2);
    TopDepth(t2, DeliverAll(map[], [b1, b2]));
    forall i | 0 <= i < |b1.calls|
      ensures ChainPath(b1.calls, i) in Column(t2) && Column(t2)[ChainPath(b1.calls, i)] == b1.calls[i].depth
    {
      EagerColumn(b1, t1, b2, t2, i);
    }
  }

  lemma WaitingColumns(t1: Tables, t2: Tables, calls: seq<Call>, entries: seq<DictEntry>)
    requires TwoSteps(Batch(0, [], Waiting(calls)), t1, Batch(0, entries, calls), t2) && OnePayload(CallSet(calls))
    requires TreeOk(t2)
    ensures forall p: Path :: p in Column(t2) && p.Under? && p != Under(Top, 0) ==>
              p.up in Column(t2) && Column(t2)[p] == Column(t2)[p.up] + 1
  {
    hide TwoSteps, TreeOk, Column, CallSet, Waiting, Deliver;
    WaitingDelivered(calls);
    forall p: Path | p in Column(t2) && p.Under? && p != Under(Top, 0)
      ensures p.up in Column(t2) && Column(t2)[p] == Column(t2)[p.up] + 1
    {
      WaitingColumn(Batch(0, [], Waiting(calls)), t1, Batch(0, entries, calls), t2, p);
    }
  }

  /** Histories of the same calls and functions whose wire depths fit together agree on the column. */
  lemma HistoriesAgree(t1: Tables, h1: seq<Batch>, t2: Tables, h2: seq<Batch>)
    requires Recorded(t1, h1) && Recorded(t2, h2) && SameHistories(h1, h2)
    requires Fits(DeliverAll(map[], h1), AllFns(h1))
    ensures TreeOk(t1) && TreeOk(t2) && Column(t1) == Column(t2)
  {
    hide Settled, Fits, Column, TreeOk, AllCalls, AllFns, DeliverAll, OnePayload;
    assert TreeOk(t1) by { RecordedTree(t1, h1); }
    assert TreeOk(t2) by { RecordedTree(t2, h2); }
    DeliveryIsASet(h1, h2);
    FittingOrdersAgree(t1, t2, DeliverAll(map[], h1));
  }

  /** For every set of calls whose wire depths do not fit together, and any offending pair of it: two
      histories of exactly these calls and functions whose depth columns differ. The first delivers the
      offending call and its ancestors in order; the second everything a drain can see before the
      dictionary, or, for calls no drain sees, the other call first. */
  method OrdersDisagree(calls: seq<Call>, entries: seq<DictEntry>, i: nat, j: nat)
    returns (t1: Tables, t2: Tables, ghost h1: seq<Batch>, ghost h2: seq<Batch>)
    requires OnePayload(CallSet(calls)) && forall k :: 0 <= k < |calls| ==> calls[k].callId >= 1
    requires Offenders(Deliver(map[], calls), Entries(entries) + {0}, i, j)
    ensures Recorded(t1, h1) && Recorded(t2, h2) && SameHistories(h1, h2)
    ensures AllCalls(h1) == CallSet(calls) && AllFns(h1) == Entries(entries) + {0}
    ensures TreeOk(t1) && TreeOk(t2) && Column(t1) != Column(t2)
  {
    hide TwoSteps, Recorded, CallSet, Entries, Column, TreeOk, OnePayload, AllCalls, AllFns, Holds, IsChain, ChainPath,
         Records, HasPath, FromOne, Deliver, Waiting, AlignedCall;
    ghost var d, known := Deliver(map[], calls), Entries(entries) + {0};
    Delivered(calls);
    var chain := ChainOf(calls, i, d, known, PathOf(d, known, i));
    var b1, b2 := Batch(0, entries, chain), Batch(0, [], calls);
    ghost var m1;
    NumberedFromOne(calls, entries);
    ChainFromOne(calls, chain, entries);
    m1, t1 := RecordTwo(b1, b2);
    BothRecorded(b1, m1, b2, t1, calls, entries);
    EagerColumns(b1, m1, b2, t1, calls, entries);
    h1 := [b1, b2];
    HeadIs(d, chain, known);
    if TopOfRoot(chain[0].parent, chain[0].fnId) {
      assert AlignedCall(d, i) by { TopIsAligned(d, i); }
      var twin := ChainOf(calls, j, d, known, PathOf(d, known, j));
      HeadIs(d, twin, known);
      var b3 := Batch(0, entries, twin);
      ChainFromOne(calls, twin, entries);
      ghost var m2;
      m2, t2 := RecordTwo(b3, b2);
      BothRecorded(b3, m2, b2, t2, calls, entries);
      EagerColumns(b3, m2, b2, t2, calls, entries);
      h2 := [b3, b2];
      TwinsDisagree(chain, twin, Column(t1), Column(t2), known);
    } else {
      var b3, b4 := Batch(0, [], Waiting(calls)), Batch(0, entries, calls);
      WaitingSet(calls);
      WaitingFromOne(calls);
      ghost var m2;
      m2, t2 := RecordTwo(b3, b4);
      assert CallSet(b3.calls) <= CallSet(calls);
      BothRecorded(b3, m2, b4, t2, calls, entries);
      h2 := [b3, b4];
      assert TreeOk(t2) by { RecordedTree(t2, h2); }
      WaitingColumns(m2, t2, calls, entries);
      ArrivalAndDrainDisagree(d, known, chain, Column(t1), Column(t2));
    }
  }

  lemma RecordedTree(t: Tables, h: seq<Batch>)
    requires Recorded(t, h)
    ensures TreeOk(t)
  {
    hide TreeOk, DeliverAll, AllFns;
  }

  lemma TopIsAligned(d: map<nat, Call>, i: nat)
    requires i in d && TopOfRoot(d[i].parent, d[i].fnId)
    ensures AlignedCall(d, i)
  {
  }

  lemma HeadIs(d: map<nat, Call>, chain: seq<Call>, known: set<nat>)
    requires Holds(d, chain) && IsChain(chain, known)
    ensures chain != [] && chain[0].callId in d && d[chain[0].callId] == chain[0]
  {
  }

  lemma NumberedFromOne(calls: seq<Call>, entries: seq<DictEntry>)
    requires forall k :: 0 <= k < |calls| ==> calls[k].callId >= 1
    ensures FromOne(Batch(0, [], calls)) && FromOne(Batch(0, entries, calls))
  {
  }

  lemma ChainFromOne(calls: seq<Call>, chain: seq<Call>, entries: seq<DictEntry>)
    requires CallSet(chain) <= CallSet(calls) && forall k :: 0 <= k < |calls| ==> calls[k].callId >= 1
    ensures FromOne(Batch(0, entries, chain))
  {
    forall k | 0 <= k < |chain|
      ensures chain[k].callId >= 1
    {
      assert chain[k] in CallSet(chain);
    }
  }

  lemma WaitingFromOne(calls: seq<Call>)
    requires forall k :: 0 <= k < |calls| ==> calls[k].callId >= 1
    ensures FromOne(Batch(0, [], Waiting(calls)))
  {
    WaitingSet(calls);
  }

  // ---- the documented convention ----

  /** The convention the wire format documents: top-level calls, the script body among them, at depth 0 and
      every other call one deeper than its parent. */
  ghost predicate DocumentedDepths(d: map<nat, Call>) {
    forall id :: id in d ==>
      d[id].depth == if d[id].parent == 0 then 0
        else if d[id].parent in d then d[d[id].parent].depth + 1 else d[id].depth
  }

  /** Under it the column is independent of arrival order only for traces whose top-level calls are all of
      the root's own function; any script body with a function of its own is an offender. */
  lemma DocumentedFitsIff(d: map<nat, Call>, known: set<nat>)
    requires DocumentedDepths(d)
    ensures Fits(d, known) <==> forall id :: id in d && Grounded(d, known, id) && d[id].parent == 0 ==> d[id].fnId == 0
  {
    hide Grounded;
    if forall id :: id in d && Grounded(d, known, id) && d[id].parent == 0 ==> d[id].fnId == 0 {
      forall id | id in Grounding(d, known)
        ensures AlignedCall(d, id)
      {
      }
    } else {
      var id :| id in d && Grounded(d, known, id) && d[id].parent == 0 && d[id].fnId != 0;
      assert id in Grounding(d, known) && !AlignedCall(d, id);
    }
  }

  const BODY := Call(1, 0, 1, 0, 0, 5, 0, 0, 0, 0, false)
  const BODY_ENTRY := DictEntry(1, "{main}", "/x.php", 1, 0)

  /** One script body at depth 0: delivered with its dictionary entry its row is at 0, before it at 1. */
  method ScriptBodyBothWays() returns (t1: Tables, t2: Tables, ghost h1: seq<Batch>, ghost h2: seq<Batch>)
    ensures Recorded(t1, h1) && Recorded(t2, h2) && AllCalls(h1) == AllCalls(h2) == {BODY}
    ensures TreeOk(t1) && TreeOk(t2) && Column(t1) != Column(t2)
  {
    hide Recorded, TreeOk, Column, AllCalls, AllFns, Offenders, OnePayload, CallSet, Entries, Deliver;
    BodyOffends();
    t1, t2, h1, h2 := OrdersDisagree([BODY], [BODY_ENTRY], 1, 1);
  }

  lemma BodyOffends()
    ensures CallSet([BODY]) == {BODY} && OnePayload(CallSet([BODY]))
    ensures Offenders(Deliver(map[], [BODY]), Entries([BODY_ENTRY]) + {0}, 1, 1)
  {
    CallSetPrepend(BODY, []);
    NoCalls();
    assert [BODY] + [] == [BODY] && [BODY][..0] == [];
    var d := Deliver(map[], [BODY]);
    assert d == Deliver(Deliver1(map[], BODY), []) == map[1 := BODY];
    assert [BODY_ENTRY][0] == BODY_ENTRY;
    assert 1 in Entries([BODY_ENTRY]);
    assert HasPath(d, Entries([BODY_ENTRY]) + {0}, 1, Under(Top, 1));
  }

  // ---- the cascade carries the fold depth, not the row's ----

  const F_ENTRY := DictEntry(1, "f", "/x.php", 1, 0)
  const G_ENTRY := DictEntry(2, "g", "/x.php", 9, 0)
  const C1 := Call(1, 0, 1, 1, 0, 5, 0, 0, 0, 0, false)
  const C4 := Call(4, 1, 2, 7, 0, 5, 0, 0, 0, 0, false)
  const C2 := Call(2, 9, 2, 2, 0, 5, 0, 0, 0, 0, false)
  const C3 := Call(3, 2, 1, 3, 0, 5, 0, 0, 0, 0, false)
  const C9 := Call(9, 0, 1, 1, 0, 5, 0, 0, 0, 0, false)
  const ROWS := Batch(0, [F_ENTRY, G_ENTRY], [C4, C1])
  const WAITERS := Batch(0, [], [C3, C2])
  const ARRIVAL := Batch(0, [], [C9])

  const F_PATH := Under(Top, 1)
  const FG_PATH := Under(F_PATH, 2)
  const FGF_PATH := Under(FG_PATH, 1)

  lemma DeliverTwo(d: map<nat, Call>, a: Call, b: Call)
    ensures Deliver(d, [a, b]) == Deliver1(Deliver1(d, b), a)
  {
    assert [a, b][..1] == [a] && [a][..0] == [];
    assert Deliver(Deliver1(d, b), [a]) == Deliver(Deliver1(Deliver1(d, b), a), []);
  }

  ghost predicate ThreeSteps(t1: Tables, t2: Tables, t3: Tables) {
    exists o1, o2, o3 ::
      && Step(EMPTY, map[], ROWS, t1, o1)
      && Step(t1, map[1 := C1, 4 := C4], WAITERS, t2, o2)
      && Step(t2, map[1 := C1, 4 := C4, 2 := C2, 3 := C3], ARRIVAL, t3, o3)
  }

  const BEFORE := map[1 := C1, 4 := C4, 2 := C2, 3 := C3]
  const AFTER := map[1 := C1, 4 := C4, 2 := C2, 3 := C3, 9 := C9]

  lemma TheDeliveries()
    ensures Deliver(map[], ROWS.calls) == map[1 := C1, 4 := C4]
    ensures Deliver(map[1 := C1, 4 := C4], WAITERS.calls) == BEFORE && Deliver(BEFORE, ARRIVAL.calls) == AFTER
  {
    DeliverTwo(map[], C4, C1);
    DeliverTwo(map[1 := C1, 4 := C4], C3, C2);
    assert [C9][..0] == [];
    assert Deliver(BEFORE, [C9]) == Deliver(Deliver1(BEFORE, C9), []);
  }

  lemma TheFunctions()
    ensures Entries(ROWS.dict) == {1, 2}
  {
    assert ROWS.dict[0] == F_ENTRY && ROWS.dict[1] == G_ENTRY;
  }

  /** The first two calls make their rows at their wire depths, 1 and 7. */
  lemma RowsMadeFirst(t1: Tables, o1: Outcome)
    requires Step(EMPTY, map[], ROWS, t1, o1)
    ensures 1 in t1.callToNode && t1.callToNode[1] in t1.nodes && t1.nodes[t1.callToNode[1]].depth == 1
    ensures 4 in t1.callToNode && t1.callToNode[4] in t1.nodes && t1.nodes[t1.callToNode[4]].depth == 7
    ensures t1.dict.Keys == {0, 1, 2} && ROOT in t1.nodes
  {
    hide Step, CallSet, Entries, IsChain, OnePayload, Prepared, Deliver, Settled;
    StepIsSettled(EMPTY, map[], ROWS, t1, o1);
    RowsDict();
    RowsAreChain();
    var calls := ROWS.calls;
    assert |calls| == 2 && calls[0] == C4 && calls[1] == C1;
    EagerRow(ROWS, t1, o1, 0);
    EagerRow(ROWS, t1, o1, 1);
  }

  lemma RowsDict()
    ensures Prepared(EMPTY, ROWS).dict.Keys == {0, 1, 2} && Entries(ROWS.dict) + {0} == {0, 1, 2}
  {
    hide Prepared, Entries;
    TheFunctions();
    PreparedEmpty(ROWS);
  }

  lemma RowsAreChain()
    ensures IsChain(ROWS.calls, {0, 1, 2}) && OnePayload(CallSet(ROWS.calls))
  {
    hide CallSet;
    CallSetPrepend(C4, [C1]);
    CallSetPrepend(C1, []);
    NoCalls();
    assert [C1] + [] == [C1] && [C4] + [C1] == [C4, C1];
    assert Linked(ROWS.calls, 1);
  }

  lemma NothingAbove(known: set<nat>, p: Path)
    ensures !HasPath(BEFORE, known, 2, p) && !HasPath(BEFORE, known, 3, p)
  {
    if p.Under? {
      assert !HasPath(BEFORE, known, 9, p.up);
      assert !HasPath(BEFORE, known, 2, p);
      if p.up.Under? {
        assert !HasPath(BEFORE, known, 9, p.up.up);
        assert !HasPath(BEFORE, known, 2, p.up);
      }
    }
  }

  /** The next two wait, and the rows stay as they are. */
  lemma WaitersWait(t1: Tables, t2: Tables, o2: Outcome)
    requires Step(t1, map[1 := C1, 4 := C4], WAITERS, t2, o2) && ROOT in t1.nodes
    ensures 2 in t2.pending && 3 in t2.pending && ROOT in t2.nodes && t2.dict.Keys == t1.dict.Keys + {0}
  {
    hide Inv, Quiescent, Traced, Reported, HasPath, Grounded, Deliver;
    TheDeliveries();
    StepIsSettled(t1, map[1 := C1, 4 := C4], WAITERS, t2, o2);
    PreparedKeys(t1, WAITERS);
    NoEntries();
    SettledIsLeastFixpoint(t2, BEFORE);
    assert !Grounded(BEFORE, t2.dict.Keys, 2) && !Grounded(BEFORE, t2.dict.Keys, 3) by { NoneAbove(t2.dict.Keys); }
  }

  lemma NoneAbove(known: set<nat>)
    ensures !Grounded(BEFORE, known, 2) && !Grounded(BEFORE, known, 3)
  {
    hide HasPath;
    forall p
      ensures !HasPath(BEFORE, known, 2, p) && !HasPath(BEFORE, known, 3, p)
    {
      NothingAbove(known, p);
    }
  }

  lemma ThePaths(known: set<nat>)
    requires known == {0, 1, 2}
    ensures HasPath(AFTER, known, 1, F_PATH) && HasPath(AFTER, known, 9, F_PATH)
    ensures HasPath(AFTER, known, 4, FG_PATH) && HasPath(AFTER, known, 2, FG_PATH) && HasPath(AFTER, known, 3, FGF_PATH)
  {
  }

  /** Every call of the set sits in the row of its context. */
  lemma RowOfPath(t: Tables, d: map<nat, Call>, id: nat, p: Path)
    requires Settled(t, d) && HasPath(d, t.dict.Keys, id, p)
    ensures id in t.callToNode && t.callToNode[id] in t.nodes && TreeOk(t) && NodePath(t.nodes, t.callToNode[id]) == p
  {
    hide Shape, UniqueKeys, Partitioned, InPlace, Summed, Populated, InvertedOnce, Aligned, DepthsOk, Quiescent,
         NodePath, HasPath;
    GroundedIsFolded(t, d, id, p);
    FoldedHasPath(t, d, id);
    PathUnique(d, t.dict.Keys, id, p, NodePath(t.nodes, t.callToNode[id]));
  }

  lemma SameRow(t: Tables, i: nat, j: nat)
    requires TreeOk(t) && i in t.callToNode && j in t.callToNode
    requires t.callToNode[i] in t.nodes && t.callToNode[j] in t.nodes
    requires NodePath(t.nodes, t.callToNode[i]) == NodePath(t.nodes, t.callToNode[j])
    ensures t.callToNode[i] == t.callToNode[j]
  {
    hide Shape, UniqueKeys, NodePath;
    NodePathInjective(t.nodes, t.callToNode[i], t.callToNode[j]);
  }

  /** The drain folds call 2 at depth 2, whatever the depth of the row it lands in, and call 3 at 3. */
  lemma CascadeDepths(mid: Tables, t: Tables, depths: map<nat, nat>)
    requires Inv(mid, AFTER) && Progress(mid, t) && DepthLog(mid, t, depths)
    requires 2 in mid.pending && 3 in mid.pending && 2 in t.callToNode && 3 in t.callToNode
    requires 2 !in t.pending && 3 !in t.pending && 9 in t.callToNode && 9 !in t.pending
    requires 9 in mid.callToNode ==>
      t.callToNode[9] in mid.nodes && t.callToNode[9] in t.nodes && t.nodes[t.callToNode[9]].depth == 1
    ensures 2 in depths && depths[2] == 2 && 3 in depths && depths[3] == 3
  {
    hide RowsInv, MadeByDrain, FoldsAt;
    MidFacts(mid);
    LoggedDepth(mid, t, depths, 2);
    LoggedDepth(mid, t, depths, 3);
    if 9 in depths {
      LoggedDepth(mid, t, depths, 9);
    }
  }

  lemma MidFacts(mid: Tables)
    requires Inv(mid, AFTER) && 2 in mid.pending && 3 in mid.pending
    ensures 2 !in mid.callToNode && 3 !in mid.callToNode && 0 !in mid.callToNode
    ensures mid.pending[2].parent == 9 && mid.pending[3].parent == 2
    ensures 9 in mid.callToNode || (9 in mid.pending && mid.pending[9].parent == 0)
    ensures 9 in mid.pending ==> 9 !in mid.callToNode && mid.pending[9].parent == 0
    ensures ROOT in mid.nodes && mid.nodes[ROOT].depth == 0
  {
    hide UniqueKeys, InPlace, Summed, Populated, InvertedOnce, Aligned, DepthsOk;
  }

  /** No call but 3 is ever in the row of context f, g, f. */
  lemma AloneAtTheEnd(t: Tables, id: nat)
    requires Settled(t, AFTER) && t.dict.Keys == {0, 1, 2} && id in t.callToNode && 3 in t.callToNode
    requires t.callToNode[id] == t.callToNode[3]
    ensures id == 3
  {
    hide Shape, UniqueKeys, InPlace, Summed, Populated, InvertedOnce, Aligned, DepthsOk, Quiescent, NodePath, HasPath;
    ThePaths(t.dict.Keys);
    RowOfPath(t, AFTER, 3, FGF_PATH);
    RowOfPath(t, AFTER, 1, F_PATH);
    RowOfPath(t, AFTER, 9, F_PATH);
    RowOfPath(t, AFTER, 4, FG_PATH);
    RowOfPath(t, AFTER, 2, FG_PATH);
    assert id in AFTER;
  }

  lemma NewRowOfThree(mid: Tables, t: Tables, depths: map<nat, nat>)
    requires Inv(mid, AFTER) && Settled(t, AFTER) && t.dict.Keys == {0, 1, 2} && Progress(mid, t)
    requires DepthLog(mid, t, depths)
    requires 3 in t.callToNode && t.callToNode[3] in t.nodes && t.callToNode[3] != ROOT && 3 !in mid.callToNode
    ensures 3 in depths && t.nodes[t.callToNode[3]].depth == depths[3]
  {
    hide Shape, UniqueKeys, Partitioned, InPlace, Aligned, DepthsOk, Quiescent, InvertedOnce, MadeByDrain, FoldsAt,
         Settled;
    var n := t.callToNode[3];
    if n in mid.nodes {
      var k := BucketHasCall(AFTER, mid.nodes, mid.callToNode, n);
      AloneAtTheEnd(t, k);
      assert false;
    }
    assert MadeByDrain(t, depths, n);
    var id := MakerOf(t, depths, n);
    AloneAtTheEnd(t, id);
  }

  lemma ArrivalDrains(t2: Tables, t3: Tables, o3: Outcome)
    requires Step(t2, BEFORE, ARRIVAL, t3, o3) && 2 in t2.pending && 3 in t2.pending && ROOT in t2.nodes
    requires t3.dict.Keys == {0, 1, 2}
    requires 1 in t3.callToNode && t3.callToNode[1] in t3.nodes && t3.nodes[t3.callToNode[1]].depth == 1
    ensures 3 in t3.callToNode && t3.callToNode[3] in t3.nodes && t3.nodes[t3.callToNode[3]].depth == 3
  {
    hide Inv, Quiescent, Reported, HasPath, Deliver, DepthsTraced, Arrived, InOrder, NodePath, TreeOk;
    TheDeliveries();
    var t0 := Prepared(t2, ARRIVAL);
    assert t0.pending == t2.pending by { PreparedKeeps(t2, ARRIVAL); }
    var mid, depths :| DepthsTraced(t0, mid, t3, AFTER, depths);
    AllFoldedRows(t3);
    MidOf(t0, mid, t3, depths);
    CascadeDepths(mid, t3, depths);
    NewRowOfThree(mid, t3, depths);
  }

  lemma AllFoldedRows(t: Tables)
    requires Settled(t, AFTER) && t.dict.Keys == {0, 1, 2}
    ensures TreeOk(t)
    ensures forall id :: id in AFTER ==> id in t.callToNode && t.callToNode[id] in t.nodes && id !in t.pending
    ensures t.callToNode[9] == t.callToNode[1] && t.callToNode[3] != ROOT
    ensures NodePath(t.nodes, t.callToNode[4]) == FG_PATH && NodePath(t.nodes, t.callToNode[3]) == FGF_PATH
  {
    hide Shape, UniqueKeys, InPlace, Summed, Populated, InvertedOnce, Aligned, DepthsOk, Quiescent, NodePath, HasPath;
    ThePaths(t.dict.Keys);
    RowOfPath(t, AFTER, 3, FGF_PATH);
    RowOfPath(t, AFTER, 1, F_PATH);
    RowOfPath(t, AFTER, 9, F_PATH);
    RowOfPath(t, AFTER, 4, FG_PATH);
    RowOfPath(t, AFTER, 2, FG_PATH);
    SameRow(t, 9, 1);
    NotTheRoot(t, AFTER, t.callToNode[3], FGF_PATH);
  }

  lemma MidOf(t0: Tables, mid: Tables, t: Tables, depths: map<nat, nat>)
    requires DepthsTraced(t0, mid, t, AFTER, depths) && 2 in t0.pending && 3 in t0.pending
    ensures Inv(mid, AFTER) && Progress(mid, t) && DepthLog(mid, t, depths)
    ensures 2 in mid.pending && 3 in mid.pending && 2 !in mid.callToNode && 3 !in mid.callToNode
    ensures 9 in mid.callToNode ==>
      9 in t.callToNode && t.callToNode[9] == mid.callToNode[9] && t.callToNode[9] in mid.nodes
  {
    hide RowsInv, DepthLog, WireRows;
    MidFacts(mid);
    if 9 in mid.callToNode {
      FoldedRowsInTree(mid, AFTER);
    }
  }

  lemma CascadeResult(t1: Tables, t2: Tables, t3: Tables)
    requires ThreeSteps(t1, t2, t3)
    ensures TreeOk(t3) && FG_PATH in Column(t3) && Column(t3)[FG_PATH] == 7
    ensures FGF_PATH in Column(t3) && Column(t3)[FGF_PATH] == 3
  {
    hide Step, Column, TreeOk, Deliver, Inv, Quiescent, Prepared, NodePath;
    var o1, o2, o3 :|
      && Step(EMPTY, map[], ROWS, t1, o1) && Step(t1, map[1 := C1, 4 := C4], WAITERS, t2, o2)
      && Step(t2, BEFORE, ARRIVAL, t3, o3);
    TheDeliveries();
    RowsMadeFirst(t1, o1);
    WaitersWait(t1, t2, o2);
    StepKeeps(t1, map[1 := C1, 4 := C4], WAITERS, t2, o2);
    StepKeeps(t2, BEFORE, ARRIVAL, t3, o3);
    StepIsSettled(t2, BEFORE, ARRIVAL, t3, o3);
    PreparedKeys(t2, ARRIVAL);
    NoEntries();
    KeptDepth(t1, t2, t1.callToNode[1]);
    KeptDepth(t1, t2, t1.callToNode[4]);
    KeptDepth(t2, t3, t1.callToNode[1]);
    KeptDepth(t2, t3, t1.callToNode[4]);
    ArrivalDrains(t2, t3, o3);
    AllFoldedRows(t3);
    ColumnAt(t3, t3.callToNode[4]);
    ColumnAt(t3, t3.callToNode[3]);
  }

  /** Calls 1 and 4 make the rows of contexts f and f, g at depths 1 and 7; calls 2 and 3, below context f, g,
      wait for call 9. When it comes, call 3 is folded at 3 although its parent's row is at 7. */
  method CascadePassesTheRow() returns (t: Tables)
    ensures TreeOk(t) && FG_PATH in Column(t) && Column(t)[FG_PATH] == 7
    ensures FGF_PATH in Column(t) && Column(t)[FGF_PATH] == 3
  {
    hide DiskOk, RecordedTo, Step, Column, TreeOk, Deliver;
    TheDeliveries();
    var storage := new Storage.Open();
    ghost var s0 := storage.OnDisk();
    var ok, o1 := storage.RecordBatch(KEY, ROWS, 1, NoFault);
    ghost var s1 := storage.OnDisk();
    RecordedIsStep(s0, s1, KEY, ROWS, 1, o1);
    var o2, o3;
    ok, o2 := storage.RecordBatch(KEY, WAITERS, 2, NoFault);
    ghost var s2 := storage.OnDisk();
    RecordedIsStep(s1, s2, KEY, WAITERS, 2, o2);
    ok, o3 := storage.RecordBatch(KEY, ARRIVAL, 3, NoFault);
    ghost var s3 := storage.OnDisk();
    RecordedIsStep(s2, s3, KEY, ARRIVAL, 3, o3);
    t := if KEY in storage.files then storage.files[KEY].tables else EMPTY;
    CascadeResult(FileAtKey(s1, KEY).tables, FileAtKey(s2, KEY).tables, FileAtKey(s3, KEY).tables);
  }
}
