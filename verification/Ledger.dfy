/** What the index row of a trace owes to the per-trace tables, and what finalize writes. */
module Ledger {
  import opened Wire
  import opened CallTree
  import opened TraceTables
  import opened Aggregate
  import opened SelfTime

  datatype TraceState = Active | Finalized

  /** The aggregate columns of a `traces` row. */
  datatype IndexRow = IndexRow(
    state: TraceState, firstBatchAt: int, lastBatchAt: int, batchCount: nat,
    callCount: nat, totalWall: nat, droppedRecords: nat, anomalyCount: nat,
    cpuAvailable: bool, pendingCount: nat)

  /** The per-trace `trace_meta` row. */
  datatype Meta = NoMeta | Meta(state: TraceState, droppedRecords: nat, cpuAvailable: bool)

  datatype TraceFile = TraceFile(meta: Meta, tables: Tables)

  /** `UPSERT_TRACE_SQL`: counters accumulate, `pendingCount` is absolute, the trace is active again. */
  function Upserted(known: bool, row: IndexRow, now: int, droppedRecords: nat, o: Outcome): IndexRow {
    if known then
      row.(batchCount := row.batchCount + 1, callCount := row.callCount + o.callCountDelta,
           totalWall := row.totalWall + o.totalWallDelta, lastBatchAt := now, droppedRecords := droppedRecords,
           anomalyCount := row.anomalyCount + o.anomaliesAdded, pendingCount := o.pendingTotal, state := Active)
    else
      IndexRow(Active, now, now, 1, o.callCountDelta, o.totalWallDelta, droppedRecords, o.anomaliesAdded, true,
        o.pendingTotal)
  }

  const NO_ROW := IndexRow(Active, 0, 0, 0, 0, 0, 0, 0, true, 0)

  // ---- verdicts ----

  /** How many rows are verdicts on calls that never folded (DQ-1 and DQ-2). */
  function Verdicts(a: seq<Anomaly>): nat
    decreases |a|
  {
    if a == [] then 0 else Verdicts(a[..|a| - 1]) + if a[|a| - 1].InvertedTime? then 0 else 1
  }

  /** The verdict finalize owes a parked row. */
  function Verdict(t: Tables, r: PendingRow): Anomaly {
    if r.fnId in t.dict then PendingParentAtFinalize(r.callId, r.parent) else UnresolvedFn(r.callId, r.fnId)
  }

  /** Exactly one verdict for each of the parked rows `ids` and for nothing else. */
  ghost predicate VerdictsFor(t: Tables, rows: seq<Anomaly>, ids: set<nat>) {
    && ids <= t.pending.Keys
    && (forall i :: 0 <= i < |rows| ==> rows[i].callId in ids && rows[i] == Verdict(t, t.pending[rows[i].callId]))
    && (forall i, j :: 0 <= i < j < |rows| ==> rows[i].callId != rows[j].callId)
    && (forall id :: id in ids ==> exists i :: 0 <= i < |rows| && rows[i].callId == id)
  }

  ghost predicate VerdictsOn(t: Tables, rows: seq<Anomaly>) {
    VerdictsFor(t, rows, t.pending.Keys)
  }

  lemma VerdictsForAppend(t: Tables, rows: seq<Anomaly>, ids: set<nat>, id: nat)
    requires VerdictsFor(t, rows, ids) && id in t.pending && id !in ids && t.pending[id].callId == id
    ensures VerdictsFor(t, rows + [Verdict(t, t.pending[id])], ids + {id})
  {
    var rows' := rows + [Verdict(t, t.pending[id])];
    forall x | x in ids + {id}
      ensures exists i :: 0 <= i < |rows'| && rows'[i].callId == x
    {
      if x in ids {
        var i :| 0 <= i < |rows| && rows[i].callId == x;
        assert rows'[i].callId == x;
      } else {
        assert rows'[|rows|].callId == x;
      }
    }
  }

  /** The parked rows `ids` whose function never arrived. */
  ghost function UnknownAmong(t: Tables, ids: set<nat>): set<nat> {
    set id | id in ids && id in t.pending && t.pending[id].fnId !in t.dict
  }

  lemma UnknownAmongInsert(t: Tables, ids: set<nat>, id: nat)
    requires id in t.pending && id !in ids
    ensures |UnknownAmong(t, ids + {id})| == |UnknownAmong(t, ids)| + if t.pending[id].fnId in t.dict then 0 else 1
  {
    if t.pending[id].fnId in t.dict {
      assert UnknownAmong(t, ids + {id}) == UnknownAmong(t, ids);
    } else {
      assert UnknownAmong(t, ids + {id}) == UnknownAmong(t, ids) + {id};
    }
  }

  /** A DQ-2 verdict is true of a settled trace: the function is known, and the call has a parent
      that was never folded. A DQ-1 verdict is true of any: the function is unknown. */
  lemma VerdictsAreTrue(t: Tables, rows: seq<Anomaly>, i: nat)
    requires Quiescent(t) && VerdictsOn(t, rows) && i < |rows|
    requires forall id :: id in t.pending ==> t.pending[id].callId == id
    ensures !rows[i].InvertedTime?
    ensures rows[i].PendingParentAtFinalize? ==>
              t.pending[rows[i].callId].fnId in t.dict && rows[i].parent != 0 && rows[i].parent !in t.callToNode
    ensures rows[i].UnresolvedFn? ==> rows[i].fnId !in t.dict && t.pending[rows[i].callId].fnId == rows[i].fnId
  {
    assert !Resolvable(t, t.pending[rows[i].callId]);
  }

  lemma {:induction false} VerdictsAppend(a: seq<Anomaly>, b: seq<Anomaly>)
    ensures Verdicts(a + b) == Verdicts(a) + Verdicts(b)
    decreases |b|
  {
    if b == [] {
      assert a + b == a;
    } else {
      VerdictsAppend(a, b[..|b| - 1]);
      assert (a + b)[..|a + b| - 1] == a + b[..|b| - 1];
    }
  }

  lemma {:induction false} AllInverted(b: seq<Anomaly>)
    requires forall i :: 0 <= i < |b| ==> b[i].InvertedTime?
    ensures Verdicts(b) == 0
    decreases |b|
  {
    if b != [] {
      AllInverted(b[..|b| - 1]);
    }
  }

  lemma {:induction false} NoneInverted(b: seq<Anomaly>)
    requires NoInverted(b)
    ensures Verdicts(b) == |b|
    decreases |b|
  {
    if b != [] {
      assert forall a :: a in b[..|b| - 1] ==> a in b;
      NoneInverted(b[..|b| - 1]);
      assert b[|b| - 1] in b;
    }
  }

  lemma InvertedAddsNoVerdict(a0: seq<Anomaly>, a: seq<Anomaly>)
    requires AppendsInverted(a0, a)
    ensures Verdicts(a) == Verdicts(a0)
  {
    var b := a[|a0|..];
    assert a == a0 + b;
    assert forall i :: 0 <= i < |b| ==> b[i] == a[|a0| + i];
    VerdictsAppend(a0, b);
    AllInverted(b);
  }

  /** There are as many verdicts as parked rows. */
  lemma VerdictCount(t: Tables, rows: seq<Anomaly>)
    requires VerdictsOn(t, rows)
    ensures |rows| == |t.pending| && NoInverted(rows)
  {
    var ids := set i | 0 <= i < |rows| :: rows[i].callId;
    assert ids == t.pending.Keys;
    DistinctIds(rows);
    assert |t.pending.Keys| == |t.pending|;
  }

  lemma {:induction false} DistinctIds(rows: seq<Anomaly>)
    requires forall i, j :: 0 <= i < j < |rows| ==> rows[i].callId != rows[j].callId
    ensures |set i | 0 <= i < |rows| :: rows[i].callId| == |rows|
    decreases |rows|
  {
    if rows != [] {
      var init, last := rows[..|rows| - 1], rows[|rows| - 1];
      DistinctIds(init);
      var a, b := set i | 0 <= i < |rows| :: rows[i].callId, set i | 0 <= i < |init| :: init[i].callId;
      assert last.callId !in b;
      forall id | id in a
        ensures id in b + {last.callId}
      {
        var i :| 0 <= i < |rows| && rows[i].callId == id;
        assert i < |init| ==> init[i] == rows[i];
      }
      forall id | id in b + {last.callId}
        ensures id in a
      {
        if id in b {
          var i :| 0 <= i < |init| && init[i].callId == id;
          assert rows[i].callId == id;
        } else {
          assert rows[|rows| - 1].callId == id;
        }
      }
      assert a == b + {last.callId};
    }
  }

  // ---- what the per-trace tables justify ----

  /** Calls the tables vouch for: folded, parked, or turned into a verdict. */
  function Justified(t: Tables): nat {
    |t.callToNode| + |t.pending| + Verdicts(t.anomalies)
  }

  /** What an index row lacks of what its file justifies; negative where the row is ahead. */
  datatype Behind = Behind(calls: int, wall: int, anomalies: int)

  /** A row that is ahead of its file by these amounts. */
  function AheadBy(calls: int, wall: int, anomalies: int): Behind {
    Behind(-calls, -wall, -anomalies)
  }

  const IN_FULL := Behind(0, 0, 0)

  /** The row plus what it lacks is what the file justifies; `w` is the wall of calls finalize has dropped. */
  ghost predicate Balanced(row: IndexRow, t: Tables, d: map<nat, Call>, w: nat, b: Behind) {
    && row.callCount + b.calls == Justified(t)
    && row.totalWall + b.wall == Total(d).wall + w
    && row.anomalyCount + b.anomalies == |t.anomalies|
  }

  /** The absolute columns agree with the file. */
  ghost predicate InStep(row: IndexRow, f: TraceFile) {
    row.pendingCount == |f.tables.pending| && (f.meta.Meta? ==> f.meta.state == row.state)
  }

  /** A recorded batch whose index commit is lost leaves the row behind by the batch's deltas. */
  function AfterRecord(b: Behind, o: Outcome, indexed: bool): Behind {
    if indexed then b
    else Behind(b.calls + o.callCountDelta, b.wall + o.totalWallDelta, b.anomalies + o.anomaliesAdded)
  }

  /** A finalize that reaches the row sets its anomaly count absolutely; one that does not leaves the
      row behind by the verdicts written. */
  function AfterFinalize(b: Behind, verdicts: nat, reached: bool): Behind {
    if reached then b.(anomalies := 0) else b.(anomalies := b.anomalies + verdicts)
  }

  lemma DeliveredSize(t: Tables, d: map<nat, Call>)
    requires Partitioned(d, t.callToNode, t.pending)
    ensures |d| == |t.callToNode| + |t.pending|
  {
    assert d.Keys == t.callToNode.Keys + t.pending.Keys;
    assert |d.Keys| == |d| && |t.callToNode.Keys| == |t.callToNode| && |t.pending.Keys| == |t.pending|;
  }

  lemma ConsistentSize(t: Tables, d: map<nat, Call>)
    requires Consistent(t, d)
    ensures |d| == |t.callToNode| + |t.pending|
  {
    hide TreeOk, InPlace, Summed, Populated, InvertedOnce, Aligned, DepthsOk, Quiescent, Partitioned;
    if Settled(t, d) {
      DeliveredSize(t, d);
    }
  }

  /** What a recorded batch adds to the tables is what its outcome adds to the row. */
  lemma RecordJustified(t0: Tables, d0: map<nat, Call>, t: Tables, d: map<nat, Call>, calls: nat, o: Outcome)
    requires Consistent(t0, d0) && Settled(t, d)
    requires Reported(Seed(t0.(dict := t.dict)), d0, t, d, calls, o)
    ensures Justified(t) == Justified(t0) + o.callCountDelta
    ensures Total(d).wall == Total(d0).wall + o.totalWallDelta
    ensures |t.anomalies| == |t0.anomalies| + o.anomaliesAdded
  {
    hide Settled, Total, Verdicts, Inv;
    ConsistentSize(t0, d0);
    assert Consistent(t, d);
    ConsistentSize(t, d);
    InvertedAddsNoVerdict(t0.anomalies, t.anomalies);
  }

  /** Turning parked calls into verdicts leaves what is vouched for, and moves their wall to the dropped one. */
  lemma DropJustified(t: Tables, d: map<nat, Call>, rows: seq<Anomaly>)
    requires Inv(t, d) && VerdictsOn(t, rows)
    ensures NoInverted(rows) && |rows| == |t.pending|
    ensures Justified(t.(pending := map[], anomalies := t.anomalies + rows)) == Justified(t)
    ensures Total(d).wall >= Total(FoldedOnly(t, d)).wall
  {
    hide TreeOk, InPlace, Summed, Populated, InvertedOnce, Aligned, DepthsOk, Partitioned, VerdictsOn, Total;
    VerdictCount(t, rows);
    VerdictsAppend(t.anomalies, rows);
    NoneInverted(rows);
    SubsetWall(d, FoldedOnly(t, d));
  }
}
