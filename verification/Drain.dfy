/** The state of the seed-then-cascade worklist, as a property of the tables and the worklist. */
module Drain {
  import opened Wire
  import opened TraceTables

  /** A row of the drain queries: a parked call with its parent's node id. */
  datatype DrainRow = DrainRow(row: PendingRow, parentNodeId: nat)

  /** A worklist entry: a call just resolved, its node, and the depth it was folded at. */
  datatype Item = Item(callId: nat, nodeId: nat, depth: nat)

  /** The parent node the seed query computes: `COALESCE(c.node_id, root)` over the join on the parent's id. */
  function JoinedParent(ctn: map<nat, nat>, parent: nat): nat {
    if parent in ctn then ctn[parent] else ROOT
  }

  /** The seed query's join finds the row `resolve_parent` would, for every parked call it selects,
      exactly as long as no call with id 0 was folded elsewhere. */
  lemma JoinAgreesIff(t: Tables)
    ensures (forall parent: nat :: parent == 0 || parent in t.callToNode ==>
      ParentRow(t, parent, JoinedParent(t.callToNode, parent)))
       <==> (0 in t.callToNode ==> t.callToNode[0] == ROOT)
  {
    if forall parent: nat :: parent == 0 || parent in t.callToNode ==>
      ParentRow(t, parent, JoinedParent(t.callToNode, parent)) {
      assert ParentRow(t, 0, JoinedParent(t.callToNode, 0));
    }
  }

  ghost function WorkIds(work: seq<Item>): set<nat> {
    set i | 0 <= i < |work| :: work[i].callId
  }

  ghost function RowIds(rows: seq<DrainRow>): set<nat> {
    set i | 0 <= i < |rows| :: rows[i].row.callId
  }

  /** Worklist entries name distinct folded calls, their nodes and, if the wire's depths are right, their depths. */
  ghost predicate WorkOk(t: Tables, d: map<nat, Call>, work: seq<Item>) {
    && (forall i :: 0 <= i < |work| ==>
          && work[i].callId in t.callToNode && t.callToNode[work[i].callId] == work[i].nodeId
          && work[i].nodeId in t.nodes
          && (Aligned(d, t.callToNode) ==> work[i].depth == t.nodes[work[i].nodeId].depth))
    && (forall i, j :: 0 <= i < j < |work| ==> work[i].callId != work[j].callId)
  }

  /** `rows` are distinct parked calls with their parents' rows. */
  ghost predicate RowsOk(t: Tables, rows: seq<DrainRow>) {
    && (forall i :: 0 <= i < |rows| ==>
          && rows[i].row.callId in t.pending && t.pending[rows[i].row.callId] == rows[i].row
          && ParentRow(t, rows[i].row.parent, rows[i].parentNodeId))
    && (forall i, j :: 0 <= i < j < |rows| ==> rows[i].row.callId != rows[j].row.callId)
  }

  /** Whatever could be folded now is either still to be visited or below a worklist entry. */
  ghost predicate Frontier(t: Tables, work: seq<Item>, rest: seq<DrainRow>) {
    forall id :: id in t.pending && Resolvable(t, t.pending[id]) ==>
      t.pending[id].parent in WorkIds(work) || id in RowIds(rest)
  }

  ghost predicate Draining(t: Tables, d: map<nat, Call>, work: seq<Item>, rest: seq<DrainRow>) {
    Inv(t, d) && WorkOk(t, d, work) && RowsOk(t, rest) && Frontier(t, work, rest)
  }

  /** A drain with nothing left to visit has reached quiescence. */
  lemma DrainedIsSettled(t: Tables, d: map<nat, Call>)
    requires Draining(t, d, [], [])
    ensures Settled(t, d)
  {
    hide Inv;
  }

  // ---- one visited row ----

  /** A visited row of an unknown function stays parked. */
  lemma SkipRow(t: Tables, d: map<nat, Call>, work: seq<Item>, rest: seq<DrainRow>)
    requires Draining(t, d, work, rest) && rest != [] && rest[0].row.fnId !in t.dict
    ensures Draining(t, d, work, rest[1..])
  {
    hide Inv, WorkOk;
    forall id | id in t.pending && Resolvable(t, t.pending[id])
      ensures t.pending[id].parent in WorkIds(work) || id in RowIds(rest[1..])
    {
      if id in RowIds(rest) {
        var i :| 0 <= i < |rest| && rest[i].row.callId == id;
        assert i > 0 && rest[1..][i - 1] == rest[i];
      }
    }
  }

  /** The depth a visited row is folded at. */
  ghost predicate DepthFor(t: Tables, d: map<nat, Call>, pid: nat, depth: nat) {
    Aligned(d, t.callToNode) ==> pid in t.nodes && depth == t.nodes[pid].depth + 1
  }

  lemma RowCanResolve(t: Tables, d: map<nat, Call>, rest: seq<DrainRow>, depth: nat, nid: nat)
    requires Inv(t, d) && RowsOk(t, rest) && rest != [] && rest[0].row.fnId in t.dict
    requires BucketOf(t, rest[0].parentNodeId, rest[0].row.fnId, nid) && DepthFor(t, d, rest[0].parentNodeId, depth)
    ensures CanResolve(t, d, rest[0].parentNodeId, FromRow(rest[0].row, depth), nid)
  {
    hide Shape, UniqueKeys, Summed, Populated, InvertedOnce, DepthsOk, Partitioned, BucketOf, Aligned;
    var pid, c := rest[0].parentNodeId, FromRow(rest[0].row, depth);
    assert pid in t.nodes by { ParentRowExists(t, d, c.parent, pid); }
    assert c.callId !in t.callToNode by { ParkedIsUnfolded(t, d, c.callId); }
    if Aligned(d, t.callToNode[c.callId := 0]) {
      ParkedDepth(t, d, c.callId, pid);
    }
  }

  lemma ParkedIsUnfolded(t: Tables, d: map<nat, Call>, id: nat)
    requires Inv(t, d) && id in t.pending
    ensures id !in t.callToNode && id in d && t.pending[id].callId == id
  {
  }

  lemma AlignedShrink(d: map<nat, Call>, ctn: map<nat, nat>, id: nat, nid: nat)
    requires Aligned(d, ctn[id := nid]) && id !in ctn
    ensures Aligned(d, ctn)
  {
    hide AlignedCall;
    forall i | i in ctn
      ensures i in ctn[id := nid]
    {
    }
  }

  /** `t'` is `t` with the parked call `id` moved to node `nid`. */
  ghost predicate Moves(t: Tables, t': Tables, id: nat, nid: nat) {
    && id !in t.callToNode && t'.callToNode == t.callToNode[id := nid]
    && t'.pending == t.pending - {id} && t'.dict == t.dict && AppendsInverted(t.anomalies, t'.anomalies)
    && forall n :: n in t.nodes ==> n in t'.nodes && t'.nodes[n].depth == t.nodes[n].depth
  }

  lemma WorkGrows(t: Tables, t': Tables, d: map<nat, Call>, work: seq<Item>, id: nat, nid: nat, depth: nat)
    requires WorkOk(t, d, work) && Moves(t, t', id, nid)
    requires nid in t'.nodes && (Aligned(d, t'.callToNode) ==> depth == t'.nodes[nid].depth)
    ensures WorkOk(t', d, work + [Item(id, nid, depth)])
  {
    hide Aligned;
    if Aligned(d, t'.callToNode) {
      AlignedShrink(d, t.callToNode, id, nid);
    }
  }

  lemma RowsShrink(t: Tables, t': Tables, rest: seq<DrainRow>, nid: nat)
    requires RowsOk(t, rest) && rest != [] && Moves(t, t', rest[0].row.callId, nid)
    ensures RowsOk(t', rest[1..])
  {
    forall i | 0 <= i < |rest| - 1
      ensures rest[1..][i].row.callId in t'.pending && t'.pending[rest[1..][i].row.callId] == rest[1..][i].row
      ensures ParentRow(t', rest[1..][i].row.parent, rest[1..][i].parentNodeId)
    {
      assert rest[1..][i] == rest[i + 1];
    }
  }

  lemma FrontierMoves(t: Tables, t': Tables, work: seq<Item>, rest: seq<DrainRow>, item: Item)
    requires Frontier(t, work, rest) && rest != [] && item.callId == rest[0].row.callId
    requires Moves(t, t', item.callId, item.nodeId)
    ensures Frontier(t', work + [item], rest[1..])
  {
    WorkIdsAppend(work, item);
    hide WorkIds;
    forall id | id in t'.pending && Resolvable(t', t'.pending[id])
      ensures t'.pending[id].parent in WorkIds(work + [item]) || id in RowIds(rest[1..])
    {
      assert t'.pending[id].parent == item.callId || Resolvable(t, t.pending[id]);
      if id in RowIds(rest) {
        var i :| 0 <= i < |rest| && rest[i].row.callId == id;
        assert i > 0 && rest[1..][i - 1] == rest[i];
      }
    }
  }

  lemma WorkIdsAppend(work: seq<Item>, item: Item)
    ensures WorkIds(work + [item]) == WorkIds(work) + {item.callId}
  {
    forall id | id in WorkIds(work) + {item.callId}
      ensures id in WorkIds(work + [item])
    {
      if id in WorkIds(work) {
        var i :| 0 <= i < |work| && work[i].callId == id;
        assert (work + [item])[i] == work[i];
      } else {
        assert (work + [item])[|work|] == item;
      }
    }
  }

  lemma DepthLookup(t: Tables, d: map<nat, Call>, pid: nat, depth: nat)
    requires pid in t.nodes && depth == t.nodes[pid].depth + 1
    ensures DepthFor(t, d, pid, depth)
  {
  }

  lemma DepthForStays(t: Tables, t': Tables, d: map<nat, Call>, id: nat, nid: nat, pid: nat, depth: nat)
    requires DepthFor(t, d, pid, depth) && Moves(t, t', id, nid)
    ensures DepthFor(t', d, pid, depth)
  {
    hide Aligned;
    if Aligned(d, t'.callToNode) {
      AlignedShrink(d, t.callToNode, id, nid);
    }
  }

  lemma FoldedDepth(t: Tables, d: map<nat, Call>, c: Call, nid: nat)
    requires Inv(t, d) && c.callId in t.callToNode && t.callToNode[c.callId] == nid
    requires Aligned(d, t.callToNode) ==> c.callId in d && c.depth == d[c.callId].depth
    ensures Aligned(d, t.callToNode) ==> nid in t.nodes && c.depth == t.nodes[nid].depth
  {
    hide Shape, UniqueKeys, Partitioned, InPlace, Summed, Populated, InvertedOnce, Aligned, DepthsOk;
    if Aligned(d, t.callToNode) {
      FoldedDepthIs(d, t.nodes, t.callToNode, c.callId);
    }
  }

  lemma ResolveMoves(t: Tables, pid: nat, c: Call, nid: nat)
    requires CanFold(t, pid, c, nid) && c.callId !in t.callToNode
    ensures Moves(t, Resolve(t, pid, c, nid), c.callId, nid)
    ensures var nodes' := Resolve(t, pid, c, nid).nodes;
            pid in t.nodes && pid in nodes' && nid in nodes' && nid != ROOT && nodes'[nid].parent == pid
  {
    hide CanFold, Fold, Resolve, Adds;
    ResolveFields(t, pid, c, nid);
    FoldAppends(t, pid, c, nid);
    FoldColumns(t, pid, c, nid);
  }

  lemma PremiseAfter(t: Tables, d: map<nat, Call>, c: Call, nid: nat)
    requires DepthPremise(t, d, c) && c.callId in d && c.callId !in t.callToNode
    ensures Aligned(d, t.callToNode[c.callId := nid]) ==> c.depth == d[c.callId].depth
  {
    hide Aligned;
    if Aligned(d, t.callToNode[c.callId := nid]) {
      AlignedParts(d, t.callToNode, c.callId, nid);
    }
  }

  /** A visited row of a known function is folded and its own parked children become the worklist's business. */
  lemma ResolveRow(t: Tables, d: map<nat, Call>, work: seq<Item>, rest: seq<DrainRow>, depth: nat, nid: nat)
    requires Draining(t, d, work, rest) && rest != [] && rest[0].row.fnId in t.dict
    requires BucketOf(t, rest[0].parentNodeId, rest[0].row.fnId, nid) && DepthFor(t, d, rest[0].parentNodeId, depth)
    ensures var c := FromRow(rest[0].row, depth);
            && Draining(Resolve(t, rest[0].parentNodeId, c, nid), d, work + [Item(c.callId, nid, depth)], rest[1..])
            && Moves(t, Resolve(t, rest[0].parentNodeId, c, nid), c.callId, nid)
  {
    hide Inv, Resolve, WorkOk, RowsOk, Frontier, CanFold, BucketOf, ParentRow, DepthPremise;
    var pid, c := rest[0].parentNodeId, FromRow(rest[0].row, depth);
    var t' := Resolve(t, pid, c, nid);
    RowCanResolve(t, d, rest, depth, nid);
    ResolveKeepsInv(t, d, pid, c, nid);
    ParkedIsUnfolded(t, d, c.callId);
    ResolveMoves(t, pid, c, nid);
    PremiseAfter(t, d, c, nid);
    FoldedDepth(t', d, c, nid);
    WorkGrows(t, t', d, work, c.callId, nid, depth);
    RowsShrink(t, t', rest, nid);
    FrontierMoves(t, t', work, rest, Item(c.callId, nid, depth));
  }

  // ---- the two drain queries, in whatever order the database returns the rows ----

  ghost predicate RowFrom(t: Tables, r: DrainRow) {
    r.row.callId in t.pending && t.pending[r.row.callId] == r.row
  }

  ghost predicate DistinctRows(rows: seq<DrainRow>) {
    forall i, j :: 0 <= i < j < |rows| ==> rows[i].row.callId != rows[j].row.callId
  }

  predicate Selects(ctn: map<nat, nat>, row: PendingRow) {
    row.parent == 0 || row.parent in ctn
  }

  /** `DRAIN_RESOLVABLE_SQL`: parked calls that are top-level or whose parent is folded. */
  ghost predicate SeedResult(t: Tables, rows: seq<DrainRow>) {
    && DistinctRows(rows)
    && (forall i :: 0 <= i < |rows| ==>
          RowFrom(t, rows[i]) && Selects(t.callToNode, rows[i].row)
          && rows[i].parentNodeId == JoinedParent(t.callToNode, rows[i].row.parent))
    && (forall id :: id in t.pending && Selects(t.callToNode, t.pending[id]) ==> id in RowIds(rows))
  }

  /** `DRAIN_CHILDREN_SQL`: parked calls whose parent is `parent`, with `node` bound in. */
  ghost predicate ChildrenResult(t: Tables, parent: nat, node: nat, rows: seq<DrainRow>) {
    && DistinctRows(rows)
    && (forall i :: 0 <= i < |rows| ==>
      RowFrom(t, rows[i]) && rows[i].row.parent == parent && rows[i].parentNodeId == node)
    && (forall id :: id in t.pending && t.pending[id].parent == parent ==> id in RowIds(rows))
  }

  lemma RowIdsAppend(rows: seq<DrainRow>, r: DrainRow)
    ensures RowIds(rows + [r]) == RowIds(rows) + {r.row.callId}
  {
    forall id | id in RowIds(rows) + {r.row.callId}
      ensures id in RowIds(rows + [r])
    {
      if id in RowIds(rows) {
        var i :| 0 <= i < |rows| && rows[i].row.callId == id;
        assert (rows + [r])[i] == rows[i];
      } else {
        assert (rows + [r])[|rows|] == r;
      }
    }
  }

  lemma SeedStartsDrain(t: Tables, d: map<nat, Call>, rows: seq<DrainRow>)
    requires Inv(t, d) && SeedResult(t, rows)
    ensures Draining(t, d, [], rows)
  {
    hide RowIds, Shape, UniqueKeys, Summed, Populated, InvertedOnce, Aligned, DepthsOk, TreeOk, InPlace;
    JoinAgreesIff(t);
    assert 0 !in t.callToNode;
  }

  lemma ChildrenContinueDrain(t: Tables, d: map<nat, Call>, work: seq<Item>, rows: seq<DrainRow>)
    requires Draining(t, d, work, []) && work != []
    requires ChildrenResult(t, work[0].callId, work[0].nodeId, rows)
    ensures Draining(t, d, work[1..], rows)
    ensures forall i :: 0 <= i < |rows| ==> rows[i].parentNodeId == work[0].nodeId
  {
    hide RowIds, Shape, UniqueKeys, Summed, Populated, InvertedOnce, Aligned, DepthsOk, TreeOk, InPlace;
    assert work[0].callId != 0;
    assert RowIds([]) == {} by { NoRowIds(); }
    forall id | id in t.pending && Resolvable(t, t.pending[id])
      ensures t.pending[id].parent in WorkIds(work[1..]) || id in RowIds(rows)
    {
      var i :| 0 <= i < |work| && work[i].callId == t.pending[id].parent;
      if i > 0 {
        assert work[1..][i - 1] == work[i];
      }
    }
  }

  lemma NoRowIds()
    ensures RowIds([]) == {}
  {
  }

  // ---- progress and cost ----

  /** `t` only moved parked calls of `t0` to the folded ones. */
  ghost predicate Progress(t0: Tables, t: Tables) {
    && t.dict == t0.dict && AppendsInverted(t0.anomalies, t.anomalies)
    && (forall id :: id in t.pending ==> id in t0.pending && t.pending[id] == t0.pending[id])
    && (forall id :: id in t0.callToNode ==> id in t.callToNode && t.callToNode[id] == t0.callToNode[id])
  }

  lemma ResolveProgress(t0: Tables, t: Tables, t': Tables, id: nat, nid: nat)
    requires Progress(t0, t) && Moves(t, t', id, nid)
    ensures Progress(t0, t')
  {
  }

  lemma SizeAfterRemove<T>(m: map<nat, T>, id: nat)
    requires id in m
    ensures |m - {id}| == |m| - 1
  {
    assert (m - {id}).Keys == m.Keys - {id};
    assert |(m - {id}).Keys| == |m - {id}| && |m.Keys| == |m|;
  }

  lemma SizeAfterInsert<T>(m: map<nat, T>, id: nat, v: T)
    requires id !in m
    ensures |m[id := v]| == |m| + 1
  {
    assert m[id := v].Keys == m.Keys + {id};
    assert |m[id := v].Keys| == |m[id := v]| && |m.Keys| == |m|;
  }

  lemma ResolveSizes(t: Tables, t': Tables, id: nat, nid: nat)
    requires Moves(t, t', id, nid) && id in t.pending
    ensures |t'.pending| == |t.pending| - 1 && |t'.callToNode| == |t.callToNode| + 1
  {
    SizeAfterRemove(t.pending, id);
    SizeAfterInsert(t.callToNode, id, nid);
  }

  /** Every parked row a children query has returned so far hangs from a call already popped, and no
      popped call is on the worklist again. */
  ghost predicate Visits(t0: Tables, t: Tables, work: seq<Item>, popped: set<nat>, visited: set<nat>) {
    && visited <= t0.pending.Keys
    && (forall v :: v in visited ==> t0.pending[v].parent in popped)
    && popped <= t.callToNode.Keys
    && popped !! WorkIds(work)
  }

  lemma PopVisits(t0: Tables, t: Tables, work: seq<Item>, popped: set<nat>, visited: set<nat>, rows: seq<DrainRow>)
    requires Visits(t0, t, work, popped, visited) && Progress(t0, t) && work != []
    requires forall i, j :: 0 <= i < j < |work| ==> work[i].callId != work[j].callId
    requires work[0].callId in t.callToNode && ChildrenResult(t, work[0].callId, work[0].nodeId, rows)
    ensures Visits(t0, t, work[1..], popped + {work[0].callId}, visited + RowIds(rows))
    ensures |visited + RowIds(rows)| == |visited| + |rows|
  {
    DistinctRowIds(rows);
    assert work[0].callId in WorkIds(work);
    forall v | v in RowIds(rows)
      ensures v !in visited && v in t0.pending && t0.pending[v].parent == work[0].callId
    {
      var i :| 0 <= i < |rows| && rows[i].row.callId == v;
      assert RowFrom(t, rows[i]);
    }
    forall id | id in WorkIds(work[1..])
      ensures id in WorkIds(work) && id != work[0].callId
    {
      var i :| 0 <= i < |work| - 1 && work[1..][i].callId == id;
      assert work[i + 1].callId == id;
    }
    assert |visited + RowIds(rows)| == |visited| + |RowIds(rows)|;
  }

  lemma {:induction false} DistinctRowIds(rows: seq<DrainRow>)
    requires DistinctRows(rows)
    ensures |RowIds(rows)| == |rows|
  {
    if rows == [] {
      NoRowIds();
    } else {
      var init, last := rows[..|rows| - 1], rows[|rows| - 1];
      DistinctRowIds(init);
      RowIdsAppend(init, last);
      assert init + [last] == rows;
      assert last.row.callId !in RowIds(init);
    }
  }

  lemma ResolveVisits(t0: Tables, t: Tables, t': Tables, work: seq<Item>, popped: set<nat>, visited: set<nat>,
                      item: Item)
    requires Visits(t0, t, work, popped, visited) && Moves(t, t', item.callId, item.nodeId)
    ensures Visits(t0, t', work + [item], popped, visited)
  {
    WorkIdsAppend(work, item);
  }

  lemma VisitsBound(t0: Tables, t: Tables, work: seq<Item>, popped: set<nat>, visited: set<nat>)
    requires Visits(t0, t, work, popped, visited)
    ensures |visited| <= |t0.pending|
  {
    SubsetSize(visited, t0.pending.Keys);
    assert |t0.pending.Keys| == |t0.pending|;
  }

  lemma {:induction false} SubsetSize(a: set<nat>, b: set<nat>)
    requires a <= b
    ensures |a| <= |b|
    decreases |a|
  {
    if a != {} {
      var x :| x in a;
      SubsetSize(a - {x}, b - {x});
    }
  }

  // ---- where a new row's depth comes from ----

  /** `nodes'` has every row of `nodes` at its old depth. */
  ghost predicate KeepsDepths(nodes: map<nat, Node>, nodes': map<nat, Node>) {
    forall n :: n in nodes ==> n in nodes' && nodes'[n].depth == nodes[n].depth
  }

  function DepthOf(t: Tables, n: nat): nat {
    if n in t.nodes then t.nodes[n].depth else 0
  }

  /** What a drain on `t0` takes for the depth of a parent: the depth of its row if it was folded before
      the drain, else the depth it was folded at itself, which the worklist carries along. */
  function SourceDepth(t0: Tables, depths: map<nat, nat>, parent: nat): nat {
    if parent == 0 then DepthOf(t0, ROOT)
    else if parent in t0.callToNode then DepthOf(t0, t0.callToNode[parent])
    else if parent in depths then depths[parent] else 0
  }

  ghost predicate Anchored(t0: Tables, depths: map<nat, nat>, parent: nat) {
    parent == 0 || parent in t0.callToNode || parent in depths
  }

  ghost predicate FoldsAt(t0: Tables, depths: map<nat, nat>, parent: nat, depth: nat) {
    Anchored(t0, depths, parent) && depth == SourceDepth(t0, depths, parent) + 1
  }

  /** Row `n` has the depth of one of the parked calls folded into it. */
  ghost predicate MadeByDrain(t: Tables, depths: map<nat, nat>, n: nat) {
    exists id :: id in depths && id in t.callToNode && t.callToNode[id] == n && n in t.nodes
      && t.nodes[n].depth == depths[id]
  }

  /** `depths` are the depths the drain on `t0` has folded parked calls at so far, each one more than
      its parent's; rows keep their depth and new ones have that of a call folded into them. */
  ghost predicate DepthLog(t0: Tables, t: Tables, depths: map<nat, nat>) {
    && depths.Keys == t0.pending.Keys - t.pending.Keys
    && (forall id :: id in depths ==> FoldsAt(t0, depths, t0.pending[id].parent, depths[id]))
    && KeepsDepths(t0.nodes, t.nodes)
    && (forall n :: n in t.nodes && n !in t0.nodes ==> MadeByDrain(t, depths, n))
  }

  ghost predicate WorkLog(t0: Tables, depths: map<nat, nat>, work: seq<Item>) {
    forall i :: 0 <= i < |work| ==> FoldsAt(t0, depths, work[i].callId, work[i].depth + 1) && work[i].callId in depths
  }

  ghost predicate RestAnchored(t0: Tables, depths: map<nat, nat>, rest: seq<DrainRow>) {
    forall i :: 0 <= i < |rest| ==> Anchored(t0, depths, rest[i].row.parent)
  }

  ghost predicate Logged(t0: Tables, t: Tables, work: seq<Item>, rest: seq<DrainRow>, depths: map<nat, nat>) {
    DepthLog(t0, t, depths) && WorkLog(t0, depths, work) && RestAnchored(t0, depths, rest)
  }

  lemma LogStarts(t: Tables, rows: seq<DrainRow>)
    requires SeedResult(t, rows)
    ensures Logged(t, t, [], rows, map[])
  {
    hide RowIds;
  }

  /** Depths already taken stay what they were when one more call is folded. */
  lemma SourceStays(t0: Tables, depths: map<nat, nat>, id: nat, at: nat, parent: nat, depth: nat)
    requires id !in depths && FoldsAt(t0, depths, parent, depth)
    ensures FoldsAt(t0, depths[id := at], parent, depth)
  {
  }

  /** `t'` has row `nid`, at `depth` if it is new, and otherwise the rows of `t`. */
  ghost predicate Lands(t: Tables, t': Tables, nid: nat, depth: nat) {
    t'.nodes.Keys == t.nodes.Keys + {nid} && (nid !in t.nodes ==> t'.nodes[nid].depth == depth)
  }

  lemma ResolveLands(t: Tables, pid: nat, c: Call, nid: nat)
    requires CanFold(t, pid, c, nid) && c.callId !in t.callToNode
    ensures Lands(t, Resolve(t, pid, c, nid), nid, c.depth)
  {
    hide CanFold, Fold, Resolve, Adds;
    ResolveFields(t, pid, c, nid);
    FoldColumns(t, pid, c, nid);
  }

  lemma RowsMade(t0: Tables, t: Tables, t': Tables, depths: map<nat, nat>, id: nat, nid: nat, depth: nat)
    requires DepthLog(t0, t, depths) && Moves(t, t', id, nid) && Lands(t, t', nid, depth) && id !in depths
    ensures forall n :: n in t'.nodes && n !in t0.nodes ==> MadeByDrain(t', depths[id := depth], n)
  {
    hide FoldsAt;
    var depths' := depths[id := depth];
    forall n | n in t'.nodes && n !in t0.nodes
      ensures MadeByDrain(t', depths', n)
    {
      if n in t.nodes {
        assert MadeByDrain(t, depths, n);
        var k :| k in depths && k in t.callToNode && t.callToNode[k] == n && t.nodes[n].depth == depths[k];
        assert k in depths' && depths'[k] == depths[k] && k in t'.callToNode && t'.callToNode[k] == n;
      } else {
        assert id in depths' && t'.callToNode[id] == n;
      }
    }
  }

  lemma LogResolves(t0: Tables, t: Tables, t': Tables, depths: map<nat, nat>, row: PendingRow, nid: nat, depth: nat)
    requires DepthLog(t0, t, depths) && Progress(t0, t) && Moves(t, t', row.callId, nid) && Lands(t, t', nid, depth)
    requires row.callId in t.pending && t.pending[row.callId] == row && FoldsAt(t0, depths, row.parent, depth)
    ensures row.callId !in depths && DepthLog(t0, t', depths[row.callId := depth])
  {
    hide FoldsAt, MadeByDrain, Lands;
    var depths' := depths[row.callId := depth];
    RowsMade(t0, t, t', depths, row.callId, nid, depth);
    SourceStays(t0, depths, row.callId, depth, row.parent, depth);
    forall id | id in depths
      ensures FoldsAt(t0, depths', t0.pending[id].parent, depths[id])
    {
      SourceStays(t0, depths, row.callId, depth, t0.pending[id].parent, depths[id]);
    }
  }

  lemma WorkLogGrows(t0: Tables, depths: map<nat, nat>, work: seq<Item>, item: Item)
    requires WorkLog(t0, depths, work) && item.callId !in depths && item.callId !in t0.callToNode && item.callId != 0
    ensures WorkLog(t0, depths[item.callId := item.depth], work + [item])
  {
    hide FoldsAt;
    var depths' := depths[item.callId := item.depth];
    assert FoldsAt(t0, depths', item.callId, item.depth + 1) by { NewItemFoldsAt(t0, depths, item); }
    forall i | 0 <= i < |work|
      ensures FoldsAt(t0, depths', work[i].callId, work[i].depth + 1)
    {
      SourceStays(t0, depths, item.callId, item.depth, work[i].callId, work[i].depth + 1);
    }
  }

  lemma NewItemFoldsAt(t0: Tables, depths: map<nat, nat>, item: Item)
    requires item.callId !in t0.callToNode && item.callId != 0
    ensures FoldsAt(t0, depths[item.callId := item.depth], item.callId, item.depth + 1)
  {
  }

  /** One more parked call folded. */
  lemma ResolveLogged(t0: Tables, t: Tables, t': Tables, work: seq<Item>, rest: seq<DrainRow>, depths: map<nat, nat>,
                      depth: nat, nid: nat)
    requires Logged(t0, t, work, rest, depths) && Progress(t0, t) && rest != []
    requires Moves(t, t', rest[0].row.callId, nid) && Lands(t, t', nid, depth)
    requires rest[0].row.callId in t.pending && t.pending[rest[0].row.callId] == rest[0].row && rest[0].row.callId != 0
    requires FoldsAt(t0, depths, rest[0].row.parent, depth)
    ensures var id := rest[0].row.callId;
            && Logged(t0, t', work + [Item(id, nid, depth)], rest[1..], depths[id := depth])
            && FoldsAt(t0, depths[id := depth], rest[0].row.parent, depth)
  {
    hide FoldsAt, DepthLog, WorkLog, Lands;
    var id := rest[0].row.callId;
    LogResolves(t0, t, t', depths, rest[0].row, nid, depth);
    assert id !in t0.callToNode;
    WorkLogGrows(t0, depths, work, Item(id, nid, depth));
    SourceStays(t0, depths, id, depth, rest[0].row.parent, depth);
  }

  lemma SkipLogged(t0: Tables, t: Tables, work: seq<Item>, rest: seq<DrainRow>, depths: map<nat, nat>)
    requires Logged(t0, t, work, rest, depths) && rest != []
    ensures Logged(t0, t, work, rest[1..], depths)
  {
    hide DepthLog, WorkLog, Anchored;
  }

  lemma PopLogged(t0: Tables, t: Tables, work: seq<Item>, depths: map<nat, nat>, rows: seq<DrainRow>)
    requires Logged(t0, t, work, [], depths) && work != [] && ChildrenResult(t, work[0].callId, work[0].nodeId, rows)
    ensures Logged(t0, t, work[1..], rows, depths) && FoldsAt(t0, depths, work[0].callId, work[0].depth + 1)
    ensures forall i :: 0 <= i < |rows| ==> rows[i].row.parent == work[0].callId
  {
    hide DepthLog, RowIds, SourceDepth;
  }

  /** The depth looked up for a seed row is the one its parent's row had before the drain. */
  lemma SeedDepth(t0: Tables, t: Tables, depths: map<nat, nat>, r: DrainRow)
    requires DepthLog(t0, t, depths) && Progress(t0, t) && ParentRow(t, r.row.parent, r.parentNodeId)
    requires Selects(t0.callToNode, r.row) && ROOT in t0.nodes
    requires r.row.parent in t0.callToNode ==> t0.callToNode[r.row.parent] in t0.nodes
    ensures r.parentNodeId in t.nodes && FoldsAt(t0, depths, r.row.parent, t.nodes[r.parentNodeId].depth + 1)
  {
    hide FoldsAt, MadeByDrain;
    assert FoldsAt(t0, depths, r.row.parent, t.nodes[r.parentNodeId].depth + 1) by { SeedSource(t0, t, depths, r); }
  }

  lemma SeedSource(t0: Tables, t: Tables, depths: map<nat, nat>, r: DrainRow)
    requires KeepsDepths(t0.nodes, t.nodes) && Progress(t0, t) && ParentRow(t, r.row.parent, r.parentNodeId)
    requires Selects(t0.callToNode, r.row) && ROOT in t0.nodes
    requires r.row.parent in t0.callToNode ==> t0.callToNode[r.row.parent] in t0.nodes
    ensures r.parentNodeId in t.nodes && FoldsAt(t0, depths, r.row.parent, t.nodes[r.parentNodeId].depth + 1)
  {
  }

  /** A call drained below a call of the same drain is one deeper than its parent's row if and only if that
      row has the depth the parent was folded at: the cascade carries the latter. */
  lemma DrainedChildDepthIff(t0: Tables, t: Tables, depths: map<nat, nat>, id: nat)
    requires DepthLog(t0, t, depths) && id in depths
    requires var p := t0.pending[id].parent;
             p != 0 && p !in t0.callToNode && p in t.callToNode && t.callToNode[p] in t.nodes
    ensures var p := t0.pending[id].parent;
            && p in depths
            && (depths[id] == t.nodes[t.callToNode[p]].depth + 1 <==> t.nodes[t.callToNode[p]].depth == depths[p])
  {
    assert FoldsAt(t0, depths, t0.pending[id].parent, depths[id]);
  }
}
