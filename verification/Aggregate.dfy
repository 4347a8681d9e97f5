/** The per-batch fold (`aggregate.rs`): the reverse in-batch loop, the gate, and the
    seed-then-cascade drain, over a transaction's view of the per-trace tables. */
module Aggregate {
  import opened Wire
  import opened CallTree
  import opened TraceTables
  import opened Drain

  datatype Outcome = Outcome(
    nodesTouched: nat,
    pendingAdded: nat,
    pendingResolved: nat,
    pendingTotal: nat,
    dictPendingAdded: nat,
    dq3Inverted: nat,
    anomaliesAdded: nat,
    callCountDelta: nat,
    totalWallDelta: nat,
    redeliveredSkipped: nat)

  const NOTHING := Outcome(0, 0, 0, 0, 0, 0, 0, 0, 0, 0)

  // ---- what a batch delivers ----

  /** First delivery of a call id wins. */
  function Deliver1(d: map<nat, Call>, c: Call): map<nat, Call> {
    if c.callId in d then d else d[c.callId := c]
  }

  /** A batch's calls are taken last to first. */
  function Deliver(d: map<nat, Call>, calls: seq<Call>): map<nat, Call>
    decreases |calls|
  {
    if calls == [] then d else Deliver(Deliver1(d, calls[|calls| - 1]), calls[..|calls| - 1])
  }

  /** `INSERT OR IGNORE` under the `kind BETWEEN 0 AND 3` check. */
  function AddEntry(dict: map<nat, DictEntry>, e: DictEntry): map<nat, DictEntry> {
    if e.fnId in dict || e.kind > 3 then dict else dict[e.fnId := e]
  }

  function AddEntries(dict: map<nat, DictEntry>, entries: seq<DictEntry>): map<nat, DictEntry>
    decreases |entries|
  {
    if entries == [] then dict else AddEntries(AddEntry(dict, entries[0]), entries[1..])
  }

  const ROOT_ENTRY := DictEntry(0, "<root>", "", 0, 0)

  /** Freshly created tables: the schema was applied, nothing else. */
  const EMPTY := Tables(map[], map[], 1, map[], map[], [])

  /** `INSERT OR IGNORE` of the synthetic root's dictionary entry and row. */
  function Seed(t: Tables): Tables {
    t.(dict := AddEntry(t.dict, ROOT_ENTRY),
       nodes := if ROOT in t.nodes then t.nodes else t.nodes[ROOT := Node(NULL, 0, 0, ZERO, 0)],
       nextNodeId := if ROOT in t.nodes then t.nextNodeId else ROOT + 1)
  }

  /** The tables of a trace between transactions: freshly created, or seeded and consistent. */
  ghost predicate Consistent(t: Tables, d: map<nat, Call>) {
    (t == EMPTY && d == map[]) || Settled(t, d)
  }

  lemma EmptyIsTotalled(d: map<nat, Call>)
    ensures NodeCalls(d, map[], ROOT) == map[]
    ensures ChildCalls(d, map[ROOT := Node(NULL, 0, 0, ZERO, 0)], map[], ROOT) == map[]
  {
  }

  /** Dictionary entries followed by the root make a consistent, though perhaps unsettled, trace. */
  lemma SeedEstablishesInv(t: Tables, d: map<nat, Call>, entries: seq<DictEntry>)
    requires Consistent(t, d)
    ensures Inv(Seed(t.(dict := AddEntries(t.dict, entries))), d)
    ensures entries == [] ==> Quiescent(Seed(t.(dict := AddEntries(t.dict, entries))))
    ensures 0 in Seed(t.(dict := AddEntries(t.dict, entries))).dict
  {
    AddEntriesGrows(t.dict, entries);
    var dict' := AddEntry(AddEntries(t.dict, entries), ROOT_ENTRY);
    if Settled(t, d) {
      SeedIsDictOnly(t, d, dict');
      DictKeepsInv(t, d, dict');
    } else {
      EmptyIsTotalled(d);
      assert Inv(EMPTY.(dict := dict', nodes := map[ROOT := Node(NULL, 0, 0, ZERO, 0)], nextNodeId := 2), map[]);
    }
  }

  lemma {:induction false} AddEntriesGrows(dict: map<nat, DictEntry>, entries: seq<DictEntry>)
    ensures dict.Keys <= AddEntries(dict, entries).Keys
    decreases |entries|
  {
    if entries != [] {
      AddEntriesGrows(AddEntry(dict, entries[0]), entries[1..]);
    }
  }

  lemma SeedIsDictOnly(t: Tables, d: map<nat, Call>, dict': map<nat, DictEntry>)
    requires Inv(t, d)
    ensures ROOT in t.nodes && 0 in t.dict
  {
  }

  /** The outcome's counters moved by exactly what the tables did. */
  ghost predicate Tallied(t0: Tables, o0: Outcome, t: Tables, o: Outcome) {
    && o.pendingResolved - o0.pendingResolved == |t0.pending| - |t.pending|
    && o.nodesTouched - o0.nodesTouched == |t.callToNode| - |t0.callToNode|
    && o.anomaliesAdded - o0.anomaliesAdded == o.dq3Inverted - o0.dq3Inverted == |t.anomalies| - |t0.anomalies|
    && o == o0.(pendingResolved := o.pendingResolved, nodesTouched := o.nodesTouched,
                anomaliesAdded := o.anomaliesAdded, dq3Inverted := o.dq3Inverted)
  }

  function CountInverted(o: Outcome, inverted: bool): Outcome {
    if inverted then o.(dq3Inverted := o.dq3Inverted + 1, anomaliesAdded := o.anomaliesAdded + 1) else o
  }

  function CountResolved(o: Outcome, inverted: bool): Outcome {
    CountInverted(o, inverted).(pendingResolved := o.pendingResolved + 1, nodesTouched := o.nodesTouched + 1)
  }

  /** What the drain has been through: the calls popped off the worklist, the parked calls its children
      queries returned, and the depths it folded parked calls at. */
  datatype Trail = Trail(popped: set<nat>, visited: set<nat>, depths: map<nat, nat>)

  /** Everything the drain keeps while it visits rows: since `t0` and `o0`, the tables have made
      progress, the outcome counted it, and the visited rows hung from popped calls. */
  ghost predicate DrainRun(t0: Tables, o0: Outcome, t: Tables, d: map<nat, Call>, o: Outcome,
                           work: seq<Item>, rest: seq<DrainRow>, trail: Trail) {
    && Draining(t, d, work, rest) && Progress(t0, t) && Tallied(t0, o0, t, o)
    && Visits(t0, t, work, trail.popped, trail.visited) && Logged(t0, t, work, rest, trail.depths)
  }

  /** The depth the next row below `pid`, the row of call `parent`, is folded at. */
  ghost predicate DepthDue(t0: Tables, t: Tables, d: map<nat, Call>, trail: Trail, pid: nat, parent: nat, depth: nat) {
    DepthFor(t, d, pid, depth) && FoldsAt(t0, trail.depths, parent, depth)
  }

  lemma RunStarts(t: Tables, d: map<nat, Call>, o: Outcome, rows: seq<DrainRow>)
    requires Inv(t, d) && SeedResult(t, rows)
    ensures DrainRun(t, o, t, d, o, [], rows, Trail({}, {}, map[]))
    ensures forall i :: 0 <= i < |rows| ==> Selects(t.callToNode, rows[i].row)
  {
    hide Inv, Draining, RowIds, Logged;
    SeedStartsDrain(t, d, rows);
    LogStarts(t, rows);
  }

  lemma RowsAreKeyed(t: Tables, d: map<nat, Call>)
    requires Inv(t, d)
    ensures forall id :: id in t.pending ==> t.pending[id].callId == id
  {
  }

  lemma RowReady(t: Tables, d: map<nat, Call>, work: seq<Item>, rest: seq<DrainRow>)
    requires Draining(t, d, work, rest) && rest != []
    ensures TreeOk(t) && rest[0].parentNodeId in t.nodes && ParentRow(t, rest[0].row.parent, rest[0].parentNodeId)
    ensures rest[0].row.callId in t.pending && rest[0].row.callId !in t.callToNode && rest[0].row.callId != 0
    ensures t.pending[rest[0].row.callId] == rest[0].row
    ensures rest[0].row.fnId in t.dict ==> !Quiescent(t)
  {
    assert rest[0].row.fnId in t.dict ==> Resolvable(t, t.pending[rest[0].row.callId]);
    hide TreeOk, InPlace, Summed, Populated, InvertedOnce, Aligned, DepthsOk;
    ParentRowExists(t, d, rest[0].row.parent, rest[0].parentNodeId);
    ParkedIsUnfolded(t, d, rest[0].row.callId);
  }

  lemma RunSkips(t0: Tables, o0: Outcome, t: Tables, d: map<nat, Call>, o: Outcome,
                 work: seq<Item>, rest: seq<DrainRow>, trail: Trail)
    requires DrainRun(t0, o0, t, d, o, work, rest, trail)
    requires rest != [] && rest[0].row.fnId !in t0.dict
    ensures DrainRun(t0, o0, t, d, o, work, rest[1..], trail)
  {
    hide Draining, Tallied, Visits, Logged;
    SkipRow(t, d, work, rest);
    SkipLogged(t0, t, work, rest, trail.depths);
  }

  lemma RunReady(t0: Tables, o0: Outcome, t: Tables, d: map<nat, Call>, o: Outcome,
                 work: seq<Item>, rest: seq<DrainRow>, trail: Trail)
    requires DrainRun(t0, o0, t, d, o, work, rest, trail) && rest != []
    ensures TreeOk(t) && rest[0].parentNodeId in t.nodes && t.dict == t0.dict
    ensures rest[0].row.fnId in t.dict ==> !Quiescent(t)
  {
    hide Draining, Tallied, Visits, TreeOk, Quiescent, Logged;
    RowReady(t, d, work, rest);
  }

  /** The depth looked up for a seed row. */
  lemma RunSeedDepth(t0: Tables, d0: map<nat, Call>, o0: Outcome, t: Tables, d: map<nat, Call>, o: Outcome,
                     work: seq<Item>, rest: seq<DrainRow>, trail: Trail)
    requires DrainRun(t0, o0, t, d, o, work, rest, trail) && rest != [] && Inv(t0, d0)
    requires Selects(t0.callToNode, rest[0].row)
    ensures rest[0].parentNodeId in t.nodes
    ensures DepthDue(t0, t, d, trail, rest[0].parentNodeId, rest[0].row.parent, t.nodes[rest[0].parentNodeId].depth + 1)
  {
    hide Draining, Tallied, Visits, TreeOk, Quiescent, FoldsAt, MadeByDrain, Inv, Progress, WorkLog, RestAnchored,
         ParentRow;
    RowReady(t, d, work, rest);
    FoldedRowsInTree(t0, d0);
    SeedDepth(t0, t, trail.depths, rest[0]);
    DepthLookup(t, d, rest[0].parentNodeId, t.nodes[rest[0].parentNodeId].depth + 1);
  }

  lemma FoldedRowsInTree(t: Tables, d: map<nat, Call>)
    requires Inv(t, d)
    ensures ROOT in t.nodes && forall i :: i in t.callToNode ==> t.callToNode[i] in t.nodes
  {
    FoldedRowsExist(d, t.nodes, t.callToNode);
  }

  /** One visited row of a known function is folded. */
  lemma RunResolves(t0: Tables, o0: Outcome, t: Tables, d: map<nat, Call>, o: Outcome,
                    work: seq<Item>, rest: seq<DrainRow>, trail: Trail, depth: nat, nid: nat)
    requires DrainRun(t0, o0, t, d, o, work, rest, trail) && rest != []
    requires CanFold(t, rest[0].parentNodeId, FromRow(rest[0].row, depth), nid)
    requires DepthDue(t0, t, d, trail, rest[0].parentNodeId, rest[0].row.parent, depth)
    ensures var t' := Resolve(t, rest[0].parentNodeId, FromRow(rest[0].row, depth), nid);
            var trail' := trail.(depths := trail.depths[rest[0].row.callId := depth]);
            && DrainRun(t0, o0, t', d, CountResolved(o, rest[0].row.tOut < rest[0].row.tIn),
                        work + [Item(rest[0].row.callId, nid, depth)], rest[1..], trail')
            && DepthDue(t0, t', d, trail', rest[0].parentNodeId, rest[0].row.parent, depth)
            && |t'.pending| == |t.pending| - 1
  {
    hide TreeOk, BucketOf, Draining, Resolve, Progress, Moves, DepthFor, Visits, Logged, FoldsAt, Lands, ParentRow,
         Quiescent;
    var c := FromRow(rest[0].row, depth);
    var t' := Resolve(t, rest[0].parentNodeId, c, nid);
    RowReady(t, d, work, rest);
    ResolveRow(t, d, work, rest, depth, nid);
    ResolveProgress(t0, t, t', c.callId, nid);
    ResolveSizes(t, t', c.callId, nid);
    ResolveFields(t, rest[0].parentNodeId, c, nid);
    ResolveLands(t, rest[0].parentNodeId, c, nid);
    ResolveVisits(t0, t, t', work, trail.popped, trail.visited, Item(c.callId, nid, depth));
    ResolveLogged(t0, t, t', work, rest, trail.depths, depth, nid);
    DepthForStays(t, t', d, c.callId, nid, rest[0].parentNodeId, depth);
  }

  /** Popping a call hands its parked children over to be visited. */
  lemma RunPops(t0: Tables, o0: Outcome, t: Tables, d: map<nat, Call>, o: Outcome,
                work: seq<Item>, trail: Trail, rows: seq<DrainRow>)
    requires DrainRun(t0, o0, t, d, o, work, [], trail) && work != []
    requires ChildrenResult(t, work[0].callId, work[0].nodeId, rows)
    ensures var trail' := Trail(trail.popped + {work[0].callId}, trail.visited + RowIds(rows), trail.depths);
            && DrainRun(t0, o0, t, d, o, work[1..], rows, trail')
            && |trail'.visited| == |trail.visited| + |rows|
            && DepthDue(t0, t, d, trail', work[0].nodeId, work[0].callId, work[0].depth + 1)
    ensures forall i :: 0 <= i < |rows| ==>
      rows[i].parentNodeId == work[0].nodeId && rows[i].row.parent == work[0].callId
  {
    hide Draining, Visits, Progress, Tallied, ChildrenResult, DepthFor, Logged, FoldsAt;
    WorklistReady(t, d, work);
    ChildrenContinueDrain(t, d, work, rows);
    PopVisits(t0, t, work, trail.popped, trail.visited, rows);
    PopLogged(t0, t, work, trail.depths, rows);
  }

  lemma WorklistReady(t: Tables, d: map<nat, Call>, work: seq<Item>)
    requires Draining(t, d, work, []) && work != []
    ensures work[0].callId in t.callToNode && DepthFor(t, d, work[0].nodeId, work[0].depth + 1)
    ensures forall i, j :: 0 <= i < j < |work| ==> work[i].callId != work[j].callId
  {
    hide Inv, Aligned;
  }

  lemma RunKeyed(t0: Tables, o0: Outcome, t: Tables, d: map<nat, Call>, o: Outcome,
                 work: seq<Item>, rest: seq<DrainRow>, trail: Trail)
    requires DrainRun(t0, o0, t, d, o, work, rest, trail)
    ensures forall id :: id in t.pending ==> t.pending[id].callId == id
  {
    hide Inv, Tallied, Visits, Progress, Logged;
    RowsAreKeyed(t, d);
  }

  lemma RunEnds(t0: Tables, o0: Outcome, t: Tables, d: map<nat, Call>, o: Outcome, trail: Trail)
    requires DrainRun(t0, o0, t, d, o, [], [], trail)
    ensures Settled(t, d) && Progress(t0, t) && Tallied(t0, o0, t, o) && |trail.visited| <= |t0.pending|
    ensures DepthLog(t0, t, trail.depths)
  {
    hide Draining, Inv, DepthLog;
    DrainedIsSettled(t, d);
    VisitsBound(t0, t, [], trail.popped, trail.visited);
  }

  // ---- the in-batch loop ----

  ghost function Ids(calls: seq<Call>): set<nat> {
    set i | 0 <= i < |calls| :: calls[i].callId
  }

  /** When the loop, coming from the end, reaches call `j`: the call is a repeat, or its function is
      known and its parent is none, folded before, or later in the array and not sitting parked. */
  ghost predicate Arrives(t0: Tables, calls: seq<Call>, j: nat)
    requires j < |calls|
  {
    var c := calls[j];
    || c.callId in t0.callToNode || c.callId in t0.pending || c.callId in Ids(calls[j + 1..])
    || (c.fnId in t0.dict
        && (c.parent == 0 || c.parent in t0.callToNode || (c.parent in Ids(calls[j + 1..]) && c.parent !in t0.pending)))
  }

  ghost predicate InOrder(t0: Tables, calls: seq<Call>, i: nat) {
    forall j :: i <= j < |calls| ==> Arrives(t0, calls, j)
  }

  // ---- which calls the loop folds and which it parks, read off the batch ----

  /** Call `j` has an id the tables did not know, and is the last in the array to carry it. */
  ghost predicate IsNew(t0: Tables, calls: seq<Call>, j: nat)
    requires j < |calls|
  {
    var id := calls[j].callId;
    id !in t0.callToNode && id !in t0.pending && id !in Ids(calls[j + 1..])
  }

  /** When the loop reaches call `j`, it is new, its function known, and its parent none, folded before, or later in
      the array and folded on arrival. */
  ghost predicate FoldsNow(t0: Tables, calls: seq<Call>, j: nat)
    requires j < |calls|
    decreases |calls| - j, 0
  {
    var c := calls[j];
    IsNew(t0, calls, j) && c.fnId in t0.dict
    && (c.parent == 0 || c.parent in t0.callToNode || c.parent in FoldedOnArrival(t0, calls, j + 1))
  }

  /** The calls among those from `i` on that are folded when the loop reaches them. */
  ghost function FoldedOnArrival(t0: Tables, calls: seq<Call>, i: nat): set<nat>
    requires i <= |calls|
    decreases |calls| - i, 1
  {
    if i == |calls| then {}
    else FoldedOnArrival(t0, calls, i + 1) + if FoldsNow(t0, calls, i) then {calls[i].callId} else {}
  }

  ghost function NewFrom(t0: Tables, calls: seq<Call>, i: nat): set<nat>
    requires i <= |calls|
  {
    Ids(calls[i..]) - t0.callToNode.Keys - t0.pending.Keys
  }

  /** The other new calls. */
  ghost function ParkedOnArrival(t0: Tables, calls: seq<Call>, i: nat): set<nat>
    requires i <= |calls|
  {
    NewFrom(t0, calls, i) - FoldedOnArrival(t0, calls, i)
  }

  /** Those of them whose function is unknown. */
  ghost function UnknownOnArrival(t0: Tables, calls: seq<Call>, i: nat): set<nat>
    requires i <= |calls|
    decreases |calls| - i
  {
    if i == |calls| then {}
    else
      UnknownOnArrival(t0, calls, i + 1)
      + if IsNew(t0, calls, i) && calls[i].fnId !in t0.dict then {calls[i].callId} else {}
  }

  /** The loop folded and parked exactly these. */
  ghost predicate LoopDid(t0: Tables, calls: seq<Call>, i: nat, t: Tables, o: Outcome)
    requires i <= |calls|
  {
    && t.callToNode.Keys == t0.callToNode.Keys + FoldedOnArrival(t0, calls, i)
    && t.pending.Keys == t0.pending.Keys + ParkedOnArrival(t0, calls, i)
    && o.dictPendingAdded == |UnknownOnArrival(t0, calls, i)|
  }

  /** After the whole batch, with the counters. */
  ghost predicate Arrived(t0: Tables, calls: seq<Call>, mid: Tables, o: Outcome) {
    LoopDid(t0, calls, 0, mid, o) && o.pendingAdded == |ParkedOnArrival(t0, calls, 0)|
  }

  lemma {:induction false} ArrivalsAreNew(t0: Tables, calls: seq<Call>, i: nat)
    requires i <= |calls|
    ensures FoldedOnArrival(t0, calls, i) <= NewFrom(t0, calls, i)
    ensures UnknownOnArrival(t0, calls, i) <= NewFrom(t0, calls, i)
    decreases |calls| - i
  {
    if i < |calls| {
      ArrivalsAreNew(t0, calls, i + 1);
      IdsStep(calls, i + 1);
    }
  }

  lemma NewStep(t0: Tables, calls: seq<Call>, i: nat)
    requires 0 < i <= |calls|
    ensures NewFrom(t0, calls, i - 1) ==
            NewFrom(t0, calls, i) + if IsNew(t0, calls, i - 1) then {calls[i - 1].callId} else {}
    ensures IsNew(t0, calls, i - 1) ==> calls[i - 1].callId !in NewFrom(t0, calls, i)
  {
    IdsStep(calls, i);
    assert calls[i - 1 + 1..] == calls[i..];
  }

  /** A call is skipped exactly if it is not new. */
  lemma SeenIffNotNew(t0: Tables, calls: seq<Call>, i: nat, t: Tables, o: Outcome)
    requires 0 < i <= |calls| && LoopDid(t0, calls, i, t, o)
    ensures IsNew(t0, calls, i - 1) <==> calls[i - 1].callId !in t.callToNode && calls[i - 1].callId !in t.pending
  {
    hide FoldedOnArrival, UnknownOnArrival;
    ArrivalsAreNew(t0, calls, i);
    assert calls[i - 1 + 1..] == calls[i..];
  }

  lemma FoldedStep(t0: Tables, calls: seq<Call>, i: nat)
    requires 0 < i <= |calls|
    ensures FoldedOnArrival(t0, calls, i - 1) ==
            FoldedOnArrival(t0, calls, i) + if FoldsNow(t0, calls, i - 1) then {calls[i - 1].callId} else {}
    ensures ParkedOnArrival(t0, calls, i - 1) == ParkedOnArrival(t0, calls, i) +
              if IsNew(t0, calls, i - 1) && !FoldsNow(t0, calls, i - 1) then {calls[i - 1].callId} else {}
  {
    hide IsNew, NewFrom;
    NewStep(t0, calls, i);
    ArrivalsAreNew(t0, calls, i);
  }

  lemma UnknownStep(t0: Tables, calls: seq<Call>, i: nat)
    requires 0 < i <= |calls|
    ensures |UnknownOnArrival(t0, calls, i - 1)| ==
      |UnknownOnArrival(t0, calls, i)| + if IsNew(t0, calls, i - 1) && calls[i - 1].fnId !in t0.dict then 1 else 0
  {
    hide IsNew, NewFrom, FoldedOnArrival;
    NewStep(t0, calls, i);
    ArrivalsAreNew(t0, calls, i);
  }

  lemma FoldsNowIff(t0: Tables, calls: seq<Call>, i: nat, t: Tables, o: Outcome)
    requires 0 < i <= |calls| && LoopDid(t0, calls, i, t, o)
    requires IsNew(t0, calls, i - 1)
    ensures var c := calls[i - 1];
            FoldsNow(t0, calls, i - 1) <==> c.fnId in t0.dict && (c.parent == 0 || c.parent in t.callToNode)
  {
    hide IsNew, FoldedOnArrival, UnknownOnArrival, ParkedOnArrival;
  }

  lemma LoopSkips(t0: Tables, calls: seq<Call>, i: nat, t: Tables, o: Outcome)
    requires 0 < i <= |calls| && LoopDid(t0, calls, i, t, o)
    requires calls[i - 1].callId in t.callToNode || calls[i - 1].callId in t.pending
    ensures LoopDid(t0, calls, i - 1, t, o.(redeliveredSkipped := o.redeliveredSkipped + 1))
  {
    hide IsNew, FoldsNow, FoldedOnArrival, ParkedOnArrival, UnknownOnArrival;
    SeenIffNotNew(t0, calls, i, t, o);
    FoldedStep(t0, calls, i);
    UnknownStep(t0, calls, i);
    assert !FoldsNow(t0, calls, i - 1) by { FoldsNowIsNew(t0, calls, i - 1); }
  }

  lemma FoldsNowIsNew(t0: Tables, calls: seq<Call>, j: nat)
    requires j < |calls|
    ensures FoldsNow(t0, calls, j) ==> IsNew(t0, calls, j)
  {
  }

  /** A new call goes to the folded or to the parked ones. */
  lemma LoopTakes(t0: Tables, calls: seq<Call>, i: nat, t: Tables, o: Outcome, t': Tables, o': Outcome)
    requires 0 < i <= |calls| && LoopDid(t0, calls, i, t, o) && IsNew(t0, calls, i - 1)
    requires var added, folds := {calls[i - 1].callId}, FoldsNow(t0, calls, i - 1);
             && t'.callToNode.Keys == t.callToNode.Keys + (if folds then added else {})
             && t'.pending.Keys == t.pending.Keys + if folds then {} else added
    requires o'.dictPendingAdded == o.dictPendingAdded + if calls[i - 1].fnId in t0.dict then 0 else 1
    ensures LoopDid(t0, calls, i - 1, t', o')
  {
    hide IsNew, FoldsNow, FoldedOnArrival, ParkedOnArrival, UnknownOnArrival;
    FoldedStep(t0, calls, i);
    UnknownStep(t0, calls, i);
  }

  lemma LoopParks(t0: Tables, calls: seq<Call>, i: nat, t: Tables, o: Outcome, o': Outcome)
    requires 0 < i <= |calls| && LoopDid(t0, calls, i, t, o) && t.dict == t0.dict
    requires calls[i - 1].callId !in t.callToNode && calls[i - 1].callId !in t.pending
    requires !Resolvable(t, ToRow(calls[i - 1]))
    requires o'.dictPendingAdded == o.dictPendingAdded + if calls[i - 1].fnId in t0.dict then 0 else 1
    ensures LoopDid(t0, calls, i - 1, Park(t, calls[i - 1]), o')
  {
    hide IsNew, FoldsNow, LoopDid, Resolvable;
    SeenIffNotNew(t0, calls, i, t, o);
    UnresolvableRow(t, calls[i - 1]);
    FoldsNowIff(t0, calls, i, t, o);
    LoopTakes(t0, calls, i, t, o, Park(t, calls[i - 1]), o');
  }

  lemma LoopFolds(t0: Tables, calls: seq<Call>, i: nat, t: Tables, o: Outcome, pid: nat, nid: nat, o': Outcome)
    requires 0 < i <= |calls| && LoopDid(t0, calls, i, t, o) && t.dict == t0.dict
    requires calls[i - 1].callId !in t.callToNode && calls[i - 1].callId !in t.pending
    requires calls[i - 1].fnId in t0.dict && ParentRow(t, calls[i - 1].parent, pid)
    requires o'.dictPendingAdded == o.dictPendingAdded
    ensures LoopDid(t0, calls, i - 1, Fold(t, pid, calls[i - 1], nid), o')
  {
    hide IsNew, FoldsNow, LoopDid, Fold, ParentRow;
    SeenIffNotNew(t0, calls, i, t, o);
    ParentIsFolded(t, calls[i - 1], pid);
    FoldsNowIff(t0, calls, i, t, o);
    FoldMaps(t, pid, calls[i - 1], nid);
    LoopTakes(t0, calls, i, t, o, Fold(t, pid, calls[i - 1], nid), o');
  }

  lemma ParentIsFolded(t: Tables, c: Call, pid: nat)
    requires ParentRow(t, c.parent, pid)
    ensures c.parent == 0 || c.parent in t.callToNode
  {
  }

  lemma FoldMaps(t: Tables, pid: nat, c: Call, nid: nat)
    requires c.callId !in t.callToNode
    ensures Fold(t, pid, c, nid).pending == t.pending
    ensures Fold(t, pid, c, nid).callToNode == t.callToNode[c.callId := nid]
  {
  }

  lemma LoopStarts(t: Tables, calls: seq<Call>)
    ensures LoopDid(t, calls, |calls|, t, NOTHING)
  {
    assert calls[|calls|..] == [];
  }

  lemma LoopEnds(t0: Tables, d0: map<nat, Call>, calls: seq<Call>, t: Tables, d: map<nat, Call>, o: Outcome)
    requires LoopDid(t0, calls, 0, t, o) && Counted(t0, d0, t, d, |calls|, o)
    ensures Arrived(t0, calls, t, o)
  {
    hide FoldedOnArrival, UnknownOnArrival, Total;
    assert |t.pending.Keys| == |t.pending| && |t0.pending.Keys| == |t0.pending|;
    assert t0.pending.Keys !! ParkedOnArrival(t0, calls, 0);
  }

  lemma ArrivedStays(t0: Tables, calls: seq<Call>, mid: Tables, o: Outcome, o': Outcome)
    requires Arrived(t0, calls, mid, o)
    requires o'.pendingAdded == o.pendingAdded && o'.dictPendingAdded == o.dictPendingAdded
    ensures Arrived(t0, calls, mid, o')
  {
    hide FoldedOnArrival, UnknownOnArrival, ParkedOnArrival;
  }

  /** Calls known before the batch stay parked, or folded where they are. */
  ghost predicate KnownStay(t0: Tables, t: Tables) {
    && (forall id :: id in t0.pending ==> id in t.pending)
    && (forall id :: id in t0.callToNode ==> id in t.callToNode && t.callToNode[id] == t0.callToNode[id])
  }

  /** What the counters say after the loop has taken calls `i..`. */
  ghost predicate Counted(t0: Tables, d0: map<nat, Call>, t: Tables, d: map<nat, Call>, taken: nat, o: Outcome) {
    && o.callCountDelta + o.redeliveredSkipped == taken
    && |d| == |d0| + o.callCountDelta && Total(d).wall == Total(d0).wall + o.totalWallDelta
    && |t.pending| == |t0.pending| + o.pendingAdded && o.pendingResolved == 0
    && |t.callToNode| == |t0.callToNode| + o.nodesTouched
    && |t.anomalies| == |t0.anomalies| + o.anomaliesAdded && o.anomaliesAdded == o.dq3Inverted
    && o.pendingTotal == 0
  }

  /** Without parking, the folded calls are exactly those known before plus those taken. */
  ghost predicate Unparked(t0: Tables, t: Tables, taken: set<nat>) {
    t.pending == t0.pending && forall id :: id in t.callToNode <==>
      id in t0.callToNode || (id in taken && id !in t0.pending)
  }

  /** Row `n` has the wire depth of a call of the batch folded into it. */
  ghost predicate MadeOnArrival(t0: Tables, t: Tables, d: map<nat, Call>, n: nat) {
    exists id :: id in t.callToNode && id in d && t.callToNode[id] == n && id !in t0.pending && id !in t0.callToNode
      && n in t.nodes && t.nodes[n].depth == d[id].depth
  }

  /** The loop leaves the depth of every row alone and gives a new row the wire depth of its first call. */
  ghost predicate WireRows(t0: Tables, t: Tables, d: map<nat, Call>) {
    && KeepsDepths(t0.nodes, t.nodes)
    && (forall n :: n in t.nodes && n !in t0.nodes ==> MadeOnArrival(t0, t, d, n))
  }

  lemma ParkKeepsWireRows(t0: Tables, t: Tables, d: map<nat, Call>, c: Call)
    requires WireRows(t0, t, d) && c.callId !in d
    ensures WireRows(t0, Park(t, c), d[c.callId := c])
  {
    hide KeepsDepths;
    var t', d' := Park(t, c), d[c.callId := c];
    forall n | n in t'.nodes && n !in t0.nodes
      ensures MadeOnArrival(t0, t', d', n)
    {
      assert MadeOnArrival(t0, t, d, n);
      var id :| id in t.callToNode && id in d && t.callToNode[id] == n && id !in t0.pending && id !in t0.callToNode
        && t.nodes[n].depth == d[id].depth;
      assert d'[id] == d[id];
    }
  }

  lemma FoldKeepsWireRows(t0: Tables, t: Tables, d: map<nat, Call>, pid: nat, c: Call, nid: nat)
    requires WireRows(t0, t, d) && c.callId !in d && c.callId !in t.callToNode && CanFold(t, pid, c, nid)
    requires c.callId !in t0.pending && c.callId !in t0.callToNode
    ensures WireRows(t0, Fold(t, pid, c, nid), d[c.callId := c])
  {
    hide CanFold, Upsert, BumpParent, Adds;
    var t', d' := Fold(t, pid, c, nid), d[c.callId := c];
    FoldColumns(t, pid, c, nid);
    forall n | n in t'.nodes && n !in t0.nodes
      ensures MadeOnArrival(t0, t', d', n)
    {
      if n in t.nodes {
        assert MadeOnArrival(t0, t, d, n);
        var id :| id in t.callToNode && id in d && t.callToNode[id] == n && id !in t0.pending && id !in t0.callToNode
          && t.nodes[n].depth == d[id].depth;
        assert d'[id] == d[id] && t'.callToNode[id] == n;
      } else {
        assert t'.callToNode[c.callId] == n && d'[c.callId] == c;
      }
    }
  }

  ghost predicate BatchRun(t0: Tables, d0: map<nat, Call>, calls: seq<Call>, i: nat, t: Tables, d: map<nat, Call>,
                           o: Outcome)
    requires i <= |calls|
  {
    && Inv(t, d) && t.dict == t0.dict && AppendsInverted(t0.anomalies, t.anomalies)
    && Deliver(d, calls[..i]) == Deliver(d0, calls)
    && Counted(t0, d0, t, d, |calls| - i, o) && WireRows(t0, t, d) && KnownStay(t0, t)
    && (o.nodesTouched == 0 && Quiescent(t0) ==> Quiescent(t))
    && (o.pendingAdded == 0 <==> InOrder(t0, calls, i))
    && (o.pendingAdded == 0 ==> Unparked(t0, t, Ids(calls[i..])))
  }

  lemma BatchStarts(t: Tables, d: map<nat, Call>, calls: seq<Call>)
    requires Inv(t, d)
    ensures BatchRun(t, d, calls, |calls|, t, d, NOTHING)
  {
    hide Inv, Quiescent, Arrives;
    assert WireRows(t, t, d);
    assert calls[..|calls|] == calls && calls[|calls|..] == [];
  }

  lemma DeliverStep(d: map<nat, Call>, calls: seq<Call>, i: nat)
    requires 0 < i <= |calls|
    ensures Deliver(d, calls[..i]) == Deliver(Deliver1(d, calls[i - 1]), calls[..i - 1])
  {
    assert calls[..i][..i - 1] == calls[..i - 1] && calls[..i][i - 1] == calls[i - 1];
  }

  lemma IdsPrepend(c: Call, calls: seq<Call>)
    ensures Ids([c] + calls) == Ids(calls) + {c.callId}
  {
    var all := [c] + calls;
    forall id | id in Ids(calls) + {c.callId}
      ensures id in Ids(all)
    {
      if id in Ids(calls) {
        var k :| 0 <= k < |calls| && calls[k].callId == id;
        assert all[k + 1] == calls[k];
      } else {
        assert all[0] == c;
      }
    }
  }

  lemma IdsStep(calls: seq<Call>, i: nat)
    requires 0 < i <= |calls|
    ensures Ids(calls[i - 1..]) == Ids(calls[i..]) + {calls[i - 1].callId}
  {
    assert calls[i - 1..] == [calls[i - 1]] + calls[i..];
    IdsPrepend(calls[i - 1], calls[i..]);
  }

  lemma InOrderStep(t0: Tables, calls: seq<Call>, i: nat)
    requires 0 < i <= |calls|
    ensures InOrder(t0, calls, i - 1) <==> InOrder(t0, calls, i) && Arrives(t0, calls, i - 1)
  {
    hide Arrives;
  }

  /** A call seen before changes nothing but the redelivery counter. */
  lemma BatchSkips(t0: Tables, d0: map<nat, Call>, calls: seq<Call>, i: nat, t: Tables, d: map<nat, Call>, o: Outcome)
    requires 0 < i <= |calls| && BatchRun(t0, d0, calls, i, t, d, o)
    requires calls[i - 1].callId in t.callToNode || calls[i - 1].callId in t.pending
    ensures BatchRun(t0, d0, calls, i - 1, t, d, o.(redeliveredSkipped := o.redeliveredSkipped + 1))
  {
    hide Inv, Quiescent, InOrder, Ids, Deliver, WireRows, Total;
    KnownIsDelivered(t, d);
    DeliverStep(d, calls, i);
    IdsStep(calls, i);
    InOrderStep(t0, calls, i);
    assert calls[i - 1 + 1..] == calls[i..];
  }

  lemma ParkChanges(t: Tables, d: map<nat, Call>, c: Call)
    requires Inv(t, d) && c.callId !in t.pending && !Resolvable(t, ToRow(c))
    ensures Park(t, c) == t.(pending := t.pending[c.callId := ToRow(c)]) && !TopOfRoot(c.parent, c.fnId)
    ensures Quiescent(t) ==> Quiescent(Park(t, c))
  {
    hide UniqueKeys, Partitioned, InPlace, Summed, Populated, InvertedOnce, Aligned, DepthsOk;
    assert 0 in t.dict by { RootEntryKnown(t); }
  }

  lemma RootEntryKnown(t: Tables)
    requires TreeOk(t)
    ensures 0 in t.dict
  {
  }

  /** A call whose function is unknown or whose parent is not folded is parked. */
  lemma BatchParks(t0: Tables, d0: map<nat, Call>, calls: seq<Call>, i: nat, t: Tables, d: map<nat, Call>, o: Outcome)
    requires 0 < i <= |calls| && BatchRun(t0, d0, calls, i, t, d, o)
    requires calls[i - 1].callId !in t.callToNode && calls[i - 1].callId !in t.pending && calls[i - 1].callId != 0
    requires !Resolvable(t, ToRow(calls[i - 1]))
    ensures var c := calls[i - 1];
            var dictPending := if c.fnId in t0.dict then o.dictPendingAdded else o.dictPendingAdded + 1;
            BatchRun(t0, d0, calls, i - 1, Park(t, c), d[c.callId := c],
                     o.(callCountDelta := o.callCountDelta + 1, totalWallDelta := o.totalWallDelta + Wall(c),
                        pendingAdded := o.pendingAdded + 1, dictPendingAdded := dictPending))
  {
    hide Inv, Ids, Deliver, InOrder, Total, Wall, WireRows, Quiescent, Park;
    var c := calls[i - 1];
    KnownIsDelivered(t, d);
    ParkChanges(t, d, c);
    ParkKeepsInv(t, d, c);
    ParkKeepsWireRows(t0, t, d, c);
    DeliverStep(d, calls, i);
    IdsStep(calls, i);
    InOrderStep(t0, calls, i);
    assert calls[i - 1 + 1..] == calls[i..];
    TotalInsert(d, c.callId, c);
    SizeAfterInsert(d, c.callId, c);
    SizeAfterInsert(t.pending, c.callId, ToRow(c));
  }

  lemma FoldCounts(t0: Tables, d0: map<nat, Call>, t: Tables, d: map<nat, Call>, taken: nat, o: Outcome, pid: nat,
                   c: Call, nid: nat)
    requires Counted(t0, d0, t, d, taken, o) && c.callId !in t.callToNode && c.callId !in d
    ensures Counted(t0, d0, Fold(t, pid, c, nid), d[c.callId := c], taken + 1,
                    CountInverted(o.(callCountDelta := o.callCountDelta + 1,
                      totalWallDelta := o.totalWallDelta + Wall(c)), Inverted(c))
                    .(nodesTouched := o.nodesTouched + 1))
    ensures Fold(t, pid, c, nid).pending == t.pending && Fold(t, pid, c, nid).dict == t.dict
    ensures Fold(t, pid, c, nid).callToNode == t.callToNode[c.callId := nid]
  {
    hide Total, Wall, Upsert, BumpParent;
    TotalInsert(d, c.callId, c);
    SizeAfterInsert(d, c.callId, c);
    SizeAfterInsert(t.callToNode, c.callId, nid);
  }

  /** A call whose function is known and whose parent is folded, or absent, is folded at once. */
  lemma BatchFolds(t0: Tables, d0: map<nat, Call>, calls: seq<Call>, i: nat, t: Tables, d: map<nat, Call>, o: Outcome,
                   pid: nat, nid: nat)
    requires 0 < i <= |calls| && BatchRun(t0, d0, calls, i, t, d, o)
    requires calls[i - 1].callId !in t.callToNode && calls[i - 1].callId !in t.pending && calls[i - 1].callId != 0
    requires CanFold(t, pid, calls[i - 1], nid) && ParentRow(t, calls[i - 1].parent, pid)
    ensures var c := calls[i - 1];
            BatchRun(t0, d0, calls, i - 1, Fold(t, pid, c, nid), d[c.callId := c],
                     CountInverted(o.(callCountDelta := o.callCountDelta + 1,
                       totalWallDelta := o.totalWallDelta + Wall(c)), Inverted(c))
                     .(nodesTouched := o.nodesTouched + 1))
  {
    hide Inv, Ids, Deliver, InOrder, Total, Wall, TreeOk, BucketOf, Fold, Quiescent, Counted, WireRows;
    var c := calls[i - 1];
    KnownIsDelivered(t, d);
    FoldKeepsWireRows(t0, t, d, pid, c, nid);
    FoldNewKeepsInv(t, d, pid, c, nid);
    DeliverStep(d, calls, i);
    IdsStep(calls, i);
    InOrderStep(t0, calls, i);
    assert calls[i - 1 + 1..] == calls[i..];
    FoldAppends(t, pid, c, nid);
    FoldCounts(t0, d0, t, d, |calls| - i, o, pid, c, nid);
    TakenCounts(t0, d0, t, d, |calls| - i, o);
  }

  lemma TakenCounts(t0: Tables, d0: map<nat, Call>, t: Tables, d: map<nat, Call>, taken: nat, o: Outcome)
    requires Counted(t0, d0, t, d, taken, o)
    ensures |t.callToNode| == |t0.callToNode| + o.nodesTouched
  {
    hide Total;
  }

  lemma UnresolvableRow(t: Tables, c: Call)
    ensures Resolvable(t, ToRow(c)) <==> c.fnId in t.dict && (c.parent == 0 || c.parent in t.callToNode)
  {
  }

  lemma BatchReady(t0: Tables, d0: map<nat, Call>, calls: seq<Call>, i: nat, t: Tables, d: map<nat, Call>, o: Outcome,
                   pid: nat)
    requires 0 < i <= |calls| && BatchRun(t0, d0, calls, i, t, d, o) && ParentRow(t, calls[i - 1].parent, pid)
    ensures TreeOk(t) && pid in t.nodes
  {
    hide TreeOk, ParentRow, Partitioned, InPlace, Summed, Populated, InvertedOnce, Aligned, DepthsOk, Counted;
    ParentRowExists(t, d, calls[i - 1].parent, pid);
  }

  lemma BatchEnds(t0: Tables, d0: map<nat, Call>, calls: seq<Call>, t: Tables, d: map<nat, Call>, o: Outcome)
    requires BatchRun(t0, d0, calls, 0, t, d, o)
    ensures Inv(t, d) && t.dict == t0.dict && AppendsInverted(t0.anomalies, t.anomalies) && d == Deliver(d0, calls)
    ensures Counted(t0, d0, t, d, |calls|, o)
    ensures o.nodesTouched == 0 && Quiescent(t0) ==> Settled(t, d)
    ensures o.pendingAdded == 0 <==> InOrder(t0, calls, 0)
    ensures WireRows(t0, t, d) && KnownStay(t0, t) && (o.pendingAdded == 0 ==> t.pending == t0.pending)
  {
    hide Inv, Quiescent, InOrder, Counted, WireRows, KnownStay;
    assert calls[..0] == [];
  }

  // ---- one step of the loop: both of these together ----

  ghost predicate InBatch(t0: Tables, d0: map<nat, Call>, calls: seq<Call>, i: nat, t: Tables, d: map<nat, Call>,
                          o: Outcome)
    requires i <= |calls|
  {
    BatchRun(t0, d0, calls, i, t, d, o) && LoopDid(t0, calls, i, t, o)
  }

  lemma StartsBatch(t: Tables, d: map<nat, Call>, calls: seq<Call>)
    requires Inv(t, d)
    ensures InBatch(t, d, calls, |calls|, t, d, NOTHING)
  {
    hide BatchRun, LoopDid;
    BatchStarts(t, d, calls);
    LoopStarts(t, calls);
  }

  lemma SkipsCall(t0: Tables, d0: map<nat, Call>, calls: seq<Call>, i: nat, t: Tables, d: map<nat, Call>, o: Outcome)
    requires 0 < i <= |calls| && InBatch(t0, d0, calls, i, t, d, o)
    requires calls[i - 1].callId in t.callToNode || calls[i - 1].callId in t.pending
    ensures InBatch(t0, d0, calls, i - 1, t, d, o.(redeliveredSkipped := o.redeliveredSkipped + 1))
  {
    hide BatchRun, LoopDid;
    BatchSkips(t0, d0, calls, i, t, d, o);
    LoopSkips(t0, calls, i, t, o);
  }

  lemma ParksCall(t0: Tables, d0: map<nat, Call>, calls: seq<Call>, i: nat, t: Tables, d: map<nat, Call>, o: Outcome)
    requires 0 < i <= |calls| && InBatch(t0, d0, calls, i, t, d, o)
    requires calls[i - 1].callId !in t.callToNode && calls[i - 1].callId !in t.pending && calls[i - 1].callId != 0
    requires !Resolvable(t, ToRow(calls[i - 1]))
    ensures var c := calls[i - 1];
            var dictPending := if c.fnId in t0.dict then o.dictPendingAdded else o.dictPendingAdded + 1;
            InBatch(t0, d0, calls, i - 1, Park(t, c), d[c.callId := c],
                    o.(callCountDelta := o.callCountDelta + 1, totalWallDelta := o.totalWallDelta + Wall(c),
                       pendingAdded := o.pendingAdded + 1, dictPendingAdded := dictPending))
  {
    hide BatchRun, LoopDid, Park, Wall, Resolvable;
    var c := calls[i - 1];
    var dictPending := if c.fnId in t0.dict then o.dictPendingAdded else o.dictPendingAdded + 1;
    BatchParks(t0, d0, calls, i, t, d, o);
    SameDict(t0, d0, calls, i, t, d, o);
    LoopParks(t0, calls, i, t, o,
              o.(callCountDelta := o.callCountDelta + 1, totalWallDelta := o.totalWallDelta + Wall(c),
                 pendingAdded := o.pendingAdded + 1, dictPendingAdded := dictPending));
  }

  lemma SameDict(t0: Tables, d0: map<nat, Call>, calls: seq<Call>, i: nat, t: Tables, d: map<nat, Call>, o: Outcome)
    requires i <= |calls| && BatchRun(t0, d0, calls, i, t, d, o)
    ensures t.dict == t0.dict
  {
    hide Inv, Counted, InOrder, WireRows, Quiescent, Deliver;
  }

  lemma FoldsCall(t0: Tables, d0: map<nat, Call>, calls: seq<Call>, i: nat, t: Tables, d: map<nat, Call>, o: Outcome,
                  pid: nat, nid: nat)
    requires 0 < i <= |calls| && InBatch(t0, d0, calls, i, t, d, o)
    requires calls[i - 1].callId !in t.callToNode && calls[i - 1].callId !in t.pending && calls[i - 1].callId != 0
    requires CanFold(t, pid, calls[i - 1], nid) && ParentRow(t, calls[i - 1].parent, pid)
    ensures var c := calls[i - 1];
            InBatch(t0, d0, calls, i - 1, Fold(t, pid, c, nid), d[c.callId := c],
                    CountInverted(o.(callCountDelta := o.callCountDelta + 1,
                      totalWallDelta := o.totalWallDelta + Wall(c)), Inverted(c))
                    .(nodesTouched := o.nodesTouched + 1))
  {
    hide BatchRun, LoopDid, Fold, Wall, TreeOk, BucketOf, ParentRow;
    var c := calls[i - 1];
    BatchFolds(t0, d0, calls, i, t, d, o, pid, nid);
    SameDict(t0, d0, calls, i, t, d, o);
    LoopFolds(t0, calls, i, t, o, pid, nid,
              CountInverted(o.(callCountDelta := o.callCountDelta + 1, totalWallDelta := o.totalWallDelta + Wall(c)),
                Inverted(c)).(nodesTouched := o.nodesTouched + 1));
  }

  lemma ReadyToFold(t0: Tables, d0: map<nat, Call>, calls: seq<Call>, i: nat, t: Tables, d: map<nat, Call>, o: Outcome,
                    pid: nat)
    requires 0 < i <= |calls| && InBatch(t0, d0, calls, i, t, d, o) && ParentRow(t, calls[i - 1].parent, pid)
    ensures TreeOk(t) && pid in t.nodes
  {
    hide BatchRun, LoopDid, TreeOk, ParentRow;
    BatchReady(t0, d0, calls, i, t, d, o, pid);
  }

  lemma EndsBatch(t0: Tables, d0: map<nat, Call>, calls: seq<Call>, t: Tables, d: map<nat, Call>, o: Outcome)
    requires InBatch(t0, d0, calls, 0, t, d, o)
    ensures Inv(t, d) && t.dict == t0.dict && AppendsInverted(t0.anomalies, t.anomalies) && d == Deliver(d0, calls)
    ensures Counted(t0, d0, t, d, |calls|, o)
    ensures o.nodesTouched == 0 && Quiescent(t0) ==> Settled(t, d)
    ensures o.pendingAdded == 0 <==> InOrder(t0, calls, 0)
    ensures WireRows(t0, t, d) && KnownStay(t0, t) && (o.pendingAdded == 0 ==> t.pending == t0.pending)
    ensures Arrived(t0, calls, t, o)
  {
    hide BatchRun, LoopDid, Inv, Deliver, Counted, Settled, InOrder, WireRows, KnownStay, Arrived, Quiescent;
    BatchEnds(t0, d0, calls, t, d, o);
    LoopEnds(t0, d0, calls, t, d, o);
  }

  /** The outcome, read against the tables before and after the whole batch. */
  ghost predicate Reported(t0: Tables, d0: map<nat, Call>, t: Tables, d: map<nat, Call>, calls: nat, o: Outcome) {
    // every call of the batch is either new or skipped as a redelivery
    && o.callCountDelta + o.redeliveredSkipped == calls
    && o.callCountDelta == |d| - |d0| && o.totalWallDelta == Total(d).wall - Total(d0).wall
    && |t.pending| == |t0.pending| + o.pendingAdded - o.pendingResolved
    && o.nodesTouched == |t.callToNode| - |t0.callToNode|
    && o.anomaliesAdded == o.dq3Inverted == |t.anomalies| - |t0.anomalies| && AppendsInverted(t0.anomalies, t.anomalies)
    && o.pendingTotal == |t.pending|
  }

  /** Where the depth of every new row comes from: the loop, which leads from `t0` to `mid`, takes the wire
      depth of the call that makes the row; the drain, from `mid` to `t`, takes one more than the depth
      of the parent, which is `depths` for a parent the same drain folded. */
  ghost predicate DepthsTraced(t0: Tables, mid: Tables, t: Tables, d: map<nat, Call>, depths: map<nat, nat>) {
    && Inv(mid, d) && WireRows(t0, mid, d) && KnownStay(t0, mid) && mid.dict == t0.dict
    && Progress(mid, t) && DepthLog(mid, t, depths)
  }

  lemma NothingTallied(t: Tables, o: Outcome)
    ensures Tallied(t, o, t, o)
  {
  }

  lemma NothingDrained(t: Tables)
    ensures Progress(t, t) && DepthLog(t, t, map[])
  {
  }

  lemma ReportDrained(t0: Tables, d0: map<nat, Call>, t1: Tables, d: map<nat, Call>, calls: nat, o1: Outcome, t: Tables,
                      o: Outcome)
    requires Counted(t0, d0, t1, d, calls, o1) && Tallied(t1, o1, t, o)
    requires AppendsInverted(t0.anomalies, t1.anomalies) && Progress(t1, t)
    ensures Reported(t0, d0, t, d, calls, o.(pendingTotal := |t.pending|))
    ensures o.pendingAdded == o1.pendingAdded && o.dictPendingAdded == o1.dictPendingAdded
  {
    hide Total;
  }

  /** One transaction's view of a per-trace database. `delivered` records every call the tables
      still account for. */
  class TraceDb {
    var dict: map<nat, DictEntry>
    var nodes: map<nat, Node>
    var nextNodeId: nat
    var callToNode: map<nat, nat>
    var pending: map<nat, PendingRow>
    var anomalies: seq<Anomaly>
    ghost var delivered: map<nat, Call>

    ghost function State(): Tables
      reads this
    {
      Tables(dict, nodes, nextNodeId, callToNode, pending, anomalies)
    }

    constructor Begin(t: Tables, ghost d: map<nat, Call>)
      ensures State() == t && delivered == d
    {
      dict, nodes, nextNodeId := t.dict, t.nodes, t.nextNodeId;
      callToNode, pending, anomalies := t.callToNode, t.pending, t.anomalies;
      delivered := d;
    }

    /** What a commit writes back. */
    method Contents() returns (t: Tables)
      ensures t == State()
    {
      t := Tables(dict, nodes, nextNodeId, callToNode, pending, anomalies);
    }

    method InsertDict(entries: seq<DictEntry>)
      modifies this`dict
      ensures dict == AddEntries(old(dict), entries)
    {
      var i := 0;
      while i < |entries|
        invariant 0 <= i <= |entries|
        invariant AddEntries(dict, entries[i..]) == AddEntries(old(dict), entries)
      {
        var e := entries[i];
        if e.fnId !in dict && e.kind <= 3 {
          dict := dict[e.fnId := e];
        }
        assert entries[i..][1..] == entries[i + 1..];
        i := i + 1;
      }
    }

    method SeedSyntheticRoot()
      modifies this`dict, this`nodes, this`nextNodeId
      ensures State() == Seed(old(State()))
    {
      if 0 !in dict {
        dict := dict[0 := ROOT_ENTRY];
      }
      if ROOT !in nodes {
        nodes := nodes[ROOT := Node(NULL, 0, 0, ZERO, 0)];
        nextNodeId := ROOT + 1;
      }
    }

    method CallIdAlreadyKnown(callId: nat) returns (known: bool)
      ensures known <==> callId in callToNode || callId in pending
    {
      known := callId in callToNode || callId in pending;
    }

    method ResolveParent(parent: nat) returns (found: bool, pid: nat)
      ensures found <==> parent == 0 || parent in callToNode
      ensures found ==> ParentRow(State(), parent, pid)
    {
      if parent == 0 {
        return true, ROOT;
      }
      if parent in callToNode {
        return true, callToNode[parent];
      }
      return false, ROOT;
    }

    /** The `nodes` upsert on its unique key. */
    method UpsertNode(pid: nat, c: Call) returns (nid: nat)
      requires TreeOk(State()) && pid in nodes && c.fnId in dict
      modifies this`nodes, this`nextNodeId
      ensures CanFold(old(State()), pid, c, nid) && pid in nodes
      ensures nodes == Upsert(old(nodes), pid, c, nid)
      ensures nextNodeId == if nid in old(nodes) then old(nextNodeId) else nid + 1
    {
      hide TreeOk, CanFold, Delta;
      ghost var t := State();
      if exists n | n in nodes :: nodes[n].parent == pid && nodes[n].fnId == c.fnId {
        nid :| nid in nodes && nodes[nid].parent == pid && nodes[nid].fnId == c.fnId;
        FoundBucket(t, pid, c, nid);
        nodes := nodes[nid := nodes[nid].(totals := nodes[nid].totals.Plus(Delta(c)))];
      } else {
        nid := nextNodeId;
        FreshBucket(t, pid, c);
        nodes := nodes[nid := Node(pid, c.fnId, c.depth, Delta(c), 0)];
        nextNodeId := nid + 1;
      }
    }

    /** The `nodes` upsert, the parent's running children sum, the id mapping and the DQ-3 row. */
    method FoldCallIntoNodes(pid: nat, c: Call, outcome: Outcome) returns (nid: nat, outcome': Outcome)
      requires TreeOk(State()) && pid in nodes && c.fnId in dict
      modifies this`nodes, this`nextNodeId, this`callToNode, this`anomalies
      ensures CanFold(old(State()), pid, c, nid)
      ensures State() == Fold(old(State()), pid, c, nid)
      ensures outcome' == CountInverted(outcome, Inverted(c))
    {
      hide TreeOk, CanFold, Upsert, Wall;
      var wall := Wall(c);
      nid := UpsertNode(pid, c);
      nodes := nodes[pid := nodes[pid].(childrenWall := nodes[pid].childrenWall + wall)];
      if c.callId !in callToNode {
        callToNode := callToNode[c.callId := nid];
      }
      outcome' := outcome;
      if Inverted(c) {
        anomalies := anomalies + [InvertedTime(nid, c.callId, c.tIn, c.tOut)];
        outcome' := outcome'.(dq3Inverted := outcome'.dq3Inverted + 1, anomaliesAdded := outcome'.anomaliesAdded + 1);
      }
    }

    method InsertPendingCall(c: Call)
      modifies this`pending
      ensures State() == Park(old(State()), c)
    {
      if c.callId !in pending {
        pending := pending[c.callId := ToRow(c)];
      }
    }

    method QuerySeed() returns (rows: seq<DrainRow>)
      requires forall id :: id in pending ==> pending[id].callId == id
      ensures SeedResult(State(), rows)
    {
      rows := [];
      var todo := pending.Keys;
      while todo != {}
        invariant todo <= pending.Keys
        invariant DistinctRows(rows) && RowIds(rows) !! todo
        invariant forall i :: 0 <= i < |rows| ==>
          RowFrom(State(), rows[i]) && Selects(callToNode, rows[i].row)
          && rows[i].parentNodeId == JoinedParent(callToNode, rows[i].row.parent)
        invariant forall id :: id in pending && id !in todo && Selects(callToNode, pending[id]) ==> id in RowIds(rows)
        decreases todo
      {
        var id :| id in todo;
        todo := todo - {id};
        if Selects(callToNode, pending[id]) {
          var row := DrainRow(pending[id], JoinedParent(callToNode, pending[id].parent));
          RowIdsAppend(rows, row);
          rows := rows + [row];
        }
      }
    }

    method QueryChildren(parent: nat, node: nat) returns (rows: seq<DrainRow>)
      requires forall id :: id in pending ==> pending[id].callId == id
      ensures ChildrenResult(State(), parent, node, rows)
    {
      rows := [];
      var todo := pending.Keys;
      while todo != {}
        invariant todo <= pending.Keys
        invariant DistinctRows(rows) && RowIds(rows) !! todo
        invariant forall i :: 0 <= i < |rows| ==>
          RowFrom(State(), rows[i]) && rows[i].row.parent == parent && rows[i].parentNodeId == node
        invariant forall id :: id in pending && id !in todo && pending[id].parent == parent ==> id in RowIds(rows)
        decreases todo
      {
        var id :| id in todo;
        todo := todo - {id};
        if pending[id].parent == parent {
          var row := DrainRow(pending[id], node);
          RowIdsAppend(rows, row);
          rows := rows + [row];
        }
      }
    }

    /** Fold one parked row at the given depth and delete it from `pending`. */
    method ResolvePendingRow(row: DrainRow, depth: nat, outcome: Outcome) returns (nid: nat, outcome': Outcome)
      requires TreeOk(State()) && row.parentNodeId in nodes && row.row.fnId in dict
      modifies this`nodes, this`nextNodeId, this`callToNode, this`anomalies, this`pending
      ensures CanFold(old(State()), row.parentNodeId, FromRow(row.row, depth), nid)
      ensures State() == Resolve(old(State()), row.parentNodeId, FromRow(row.row, depth), nid)
      ensures outcome' == CountResolved(outcome, row.row.tOut < row.row.tIn)
    {
      hide TreeOk, CanFold, Fold;
      var c := FromRow(row.row, depth);
      nid, outcome' := FoldCallIntoNodes(row.parentNodeId, c, outcome);
      pending := pending - {row.row.callId};
      outcome' := outcome'.(pendingResolved := outcome'.pendingResolved + 1, nodesTouched := outcome'.nodesTouched + 1);
    }

    /** Fold or park every call of the batch, last to first, then drain unless nothing can have become resolvable. */
    method AggregateCalls(batch: Batch) returns (outcome: Outcome, ghost mid: Tables, ghost depths: map<nat, nat>)
      requires Inv(State(), delivered)
      requires batch.dict == [] ==> Quiescent(State())
      requires forall i :: 0 <= i < |batch.calls| ==> batch.calls[i].callId >= 1
      modifies this`nodes, this`nextNodeId, this`callToNode, this`anomalies, this`pending, this`delivered
      ensures Settled(State(), delivered) && dict == old(dict)
      ensures delivered == Deliver(old(delivered), batch.calls)
      ensures Reported(old(State()), old(delivered), State(), delivered, |batch.calls|, outcome)
      ensures outcome.pendingAdded == 0 <==> InOrder(old(State()), batch.calls, 0)
      ensures DepthsTraced(old(State()), mid, State(), delivered, depths)
      ensures Arrived(old(State()), batch.calls, mid, outcome)
      ensures outcome.pendingAdded == 0 ==> mid.pending == old(pending)
    {
      hide Inv, TreeOk, CanFold, Fold, Park, Quiescent, Resolvable, InBatch, InOrder, Deliver, Wall, Reported,
           ParentRow, Settled, WireRows, KnownStay, Progress, DepthLog, Tallied, Arrived;
      ghost var t0, d0 := State(), delivered;
      outcome := NOTHING;
      var known := dict.Keys;
      StartsBatch(t0, d0, batch.calls);
      var i := |batch.calls|;
      while i > 0
        invariant 0 <= i <= |batch.calls| && dict == t0.dict
        invariant InBatch(t0, d0, batch.calls, i, State(), delivered, outcome)
      {
        var c := batch.calls[i - 1];
        ghost var t, d, o := State(), delivered, outcome;
        var seen := CallIdAlreadyKnown(c.callId);
        if seen {
          outcome := outcome.(redeliveredSkipped := outcome.redeliveredSkipped + 1);
          SkipsCall(t0, d0, batch.calls, i, t, d, o);
        } else {
          outcome := outcome.(callCountDelta := outcome.callCountDelta + 1,
            totalWallDelta := outcome.totalWallDelta + Wall(c));
          delivered := delivered[c.callId := c];
          if c.fnId !in known {
            InsertPendingCall(c);
            outcome := outcome.(pendingAdded := outcome.pendingAdded + 1,
              dictPendingAdded := outcome.dictPendingAdded + 1);
            UnresolvableRow(t, c);
            ParksCall(t0, d0, batch.calls, i, t, d, o);
          } else {
            var found, pid := ResolveParent(c.parent);
            if found {
              ReadyToFold(t0, d0, batch.calls, i, t, d, o, pid);
              var nid;
              nid, outcome := FoldCallIntoNodes(pid, c, outcome);
              outcome := outcome.(nodesTouched := outcome.nodesTouched + 1);
              FoldsCall(t0, d0, batch.calls, i, t, d, o, pid, nid);
            } else {
              InsertPendingCall(c);
              outcome := outcome.(pendingAdded := outcome.pendingAdded + 1);
              UnresolvableRow(t, c);
              ParksCall(t0, d0, batch.calls, i, t, d, o);
            }
          }
        }
        i := i - 1;
      }

      ghost var t, o := State(), outcome;
      EndsBatch(t0, d0, batch.calls, t, delivered, o);
      mid, depths := t, map[];
      NothingDrained(t);
      if batch.dict != [] || outcome.nodesTouched > 0 {
        ghost var scanned;
        outcome, scanned, depths := DrainPending(known, outcome);
        ReportDrained(t0, d0, t, delivered, |batch.calls|, o, State(), outcome);
      } else {
        assert Tallied(t, o, t, o) by { NothingTallied(t, o); }
        ReportDrained(t0, d0, t, delivered, |batch.calls|, o, t, o);
      }
      outcome := outcome.(pendingTotal := |pending|);
      ArrivedStays(t0, batch.calls, t, o, outcome);
    }

    /** Seed with every row resolvable now, then follow each resolved call to its parked children.
        `depths` are the depths the resolved calls were folded at. */
    method DrainPending(known: set<nat>, outcome: Outcome)
      returns (outcome': Outcome, ghost scanned: nat, ghost depths: map<nat, nat>)
      requires Inv(State(), delivered) && known == dict.Keys
      modifies this`nodes, this`nextNodeId, this`callToNode, this`anomalies, this`pending
      ensures Settled(State(), delivered)
      ensures Progress(old(State()), State())
      ensures Tallied(old(State()), outcome, State(), outcome')
      ensures DepthLog(old(State()), State(), depths)
      // the children queries together return no more rows than were parked: work is linear
      ensures scanned <= |old(pending)|
      ensures Quiescent(old(State())) ==> State() == old(State()) && outcome' == outcome
    {
      hide TreeOk, CanFold, Resolve, DrainRun, SeedResult, ChildrenResult, CountResolved, Inv, DepthDue, RowIds,
           Settled, Quiescent, Tallied, Progress, Selects, DepthLog;
      ghost var t0, trail := State(), Trail({}, {}, map[]);
      var worklist: seq<Item> := [];
      outcome' := outcome;
      RowsAreKeyed(t0, delivered);
      var seed := QuerySeed();
      RunStarts(t0, delivered, outcome, seed);
      assert seed[0..] == seed;
      var i := 0;
      while i < |seed|
        invariant 0 <= i <= |seed| && dict == t0.dict
        invariant DrainRun(t0, outcome, State(), delivered, outcome', worklist, seed[i..], trail) && trail.visited == {}
        invariant Quiescent(t0) ==> State() == t0 && outcome' == outcome && worklist == []
      {
        var row := seed[i];
        ghost var t, o := State(), outcome';
        assert seed[i..][0] == row && seed[i..][1..] == seed[i + 1..];
        if row.row.fnId !in known {
          RunSkips(t0, outcome, t, delivered, o, worklist, seed[i..], trail);
        } else {
          RunReady(t0, outcome, t, delivered, o, worklist, seed[i..], trail);
          RunSeedDepth(t0, delivered, outcome, t, delivered, o, worklist, seed[i..], trail);
          var depth := nodes[row.parentNodeId].depth + 1;
          var nid;
          nid, outcome' := ResolvePendingRow(row, depth, outcome');
          RunResolves(t0, outcome, t, delivered, o, worklist, seed[i..], trail, depth, nid);
          worklist := worklist + [Item(row.row.callId, nid, depth)];
          trail := trail.(depths := trail.depths[row.row.callId := depth]);
        }
        i := i + 1;
      }
      assert seed[i..] == [];

      scanned := 0;
      while worklist != []
        invariant DrainRun(t0, outcome, State(), delivered, outcome', worklist, [], trail)
        invariant dict == t0.dict && scanned == |trail.visited|
        invariant Quiescent(t0) ==> State() == t0 && outcome' == outcome && worklist == []
        decreases |pending| + |worklist|
      {
        var item := worklist[0];
        // each pop shortens backlog plus worklist by one
        ghost var size := |pending| + |worklist|;
        RunKeyed(t0, outcome, State(), delivered, outcome', worklist, [], trail);
        var children := QueryChildren(item.callId, item.nodeId);
        RunPops(t0, outcome, State(), delivered, outcome', worklist, trail, children);
        worklist := worklist[1..];
        trail := Trail(trail.popped + {item.callId}, trail.visited + RowIds(children), trail.depths);
        scanned := scanned + |children|;
        assert children[0..] == children;
        i := 0;
        while i < |children|
          invariant 0 <= i <= |children| && dict == t0.dict && scanned == |trail.visited|
          invariant DrainRun(t0, outcome, State(), delivered, outcome', worklist, children[i..], trail)
          invariant |pending| + |worklist| == size - 1
          invariant DepthDue(t0, State(), delivered, trail, item.nodeId, item.callId, item.depth + 1)
        {
          var row := children[i];
          ghost var t, o := State(), outcome';
          assert children[i..][0] == row && children[i..][1..] == children[i + 1..];
          if row.row.fnId !in known {
            RunSkips(t0, outcome, t, delivered, o, worklist, children[i..], trail);
          } else {
            RunReady(t0, outcome, t, delivered, o, worklist, children[i..], trail);
            var nid;
            nid, outcome' := ResolvePendingRow(row, item.depth + 1, outcome');
            RunResolves(t0, outcome, t, delivered, o, worklist, children[i..], trail, item.depth + 1, nid);
            worklist := worklist + [Item(row.row.callId, nid, item.depth + 1)];
            trail := trail.(depths := trail.depths[row.row.callId := item.depth + 1]);
          }
          i := i + 1;
        }
        assert children[i..] == [];
      }
      RunEnds(t0, outcome, State(), delivered, outcome', trail);
      depths := trail.depths;
    }
  }
}
