/** The per-trace database (`schema.rs`) as a value, the invariant the aggregator keeps on it, and
    the row-level steps the aggregator is made of. */
module TraceTables {
  import opened Wire
  import opened CallTree

  /** The synthetic root every top-level call hangs from. */
  const ROOT: nat := 1
  /** `parent_node_id` of the root row; row ids start at 1. */
  const NULL: nat := 0

  datatype Node = Node(parent: nat, fnId: nat, depth: nat, totals: Totals, childrenWall: int)

  /** A parked call: everything but the wire depth. */
  datatype PendingRow = PendingRow(
    callId: nat, parent: nat, fnId: nat,
    tIn: int, tOut: int, cpuU: int, cpuS: int, memIn: int, memOut: int, abnormalExit: bool)

  function ToRow(c: Call): PendingRow {
    PendingRow(c.callId, c.parent, c.fnId, c.tIn, c.tOut, c.cpuU, c.cpuS, c.memIn, c.memOut, c.abnormalExit)
  }

  function FromRow(r: PendingRow, depth: nat): Call {
    Call(r.callId, r.parent, r.fnId, depth, r.tIn, r.tOut, r.cpuU, r.cpuS, r.memIn, r.memOut, r.abnormalExit)
  }

  datatype Anomaly =
    | UnresolvedFn(callId: nat, fnId: nat)
    | PendingParentAtFinalize(callId: nat, parent: nat)
    | InvertedTime(nodeId: nat, callId: nat, tIn: int, tOut: int)

  datatype Tables = Tables(
    dict: map<nat, DictEntry>,
    nodes: map<nat, Node>,
    nextNodeId: nat,
    callToNode: map<nat, nat>,
    pending: map<nat, PendingRow>,
    anomalies: seq<Anomaly>)

  // ---- the node tree ----

  ghost predicate Shape(nodes: map<nat, Node>) {
    && ROOT in nodes && nodes[ROOT].parent == NULL && nodes[ROOT].fnId == 0
    && forall n :: n in nodes && n != ROOT ==> ROOT <= nodes[n].parent < n && nodes[n].parent in nodes
  }

  /** UNIQUE (parent_node_id, fn_id). */
  ghost predicate UniqueKeys(nodes: map<nat, Node>) {
    forall m, n :: m in nodes && n in nodes && nodes[m].parent == nodes[n].parent && nodes[m].fnId == nodes[n].fnId ==>
      m == n
  }

  ghost predicate TreeOk(t: Tables) {
    && Shape(t.nodes)
    && UniqueKeys(t.nodes)
    && (forall n :: n in t.nodes ==> n < t.nextNodeId && t.nodes[n].fnId in t.dict)
  }

  /** `nodes'` may add rows and change counters, but keeps every row's parent and function. */
  ghost predicate Grows(nodes: map<nat, Node>, nodes': map<nat, Node>) {
    forall n :: n in nodes ==> n in nodes' && nodes'[n].parent == nodes[n].parent && nodes'[n].fnId == nodes[n].fnId
  }

  // ---- what the rows have to say about the delivered calls ----

  /** Calls folded into row `n`. */
  ghost function NodeCalls(d: map<nat, Call>, ctn: map<nat, nat>, n: nat): map<nat, Call> {
    map id | id in ctn && id in d && ctn[id] == n :: d[id]
  }

  /** Calls folded into a child row of row `n`. */
  ghost function ChildCalls(d: map<nat, Call>, nodes: map<nat, Node>, ctn: map<nat, nat>, n: nat): map<nat, Call> {
    map id | id in ctn && id in d && ctn[id] in nodes && nodes[ctn[id]].parent == n :: d[id]
  }

  /** Every delivered call is either folded or parked, never both. */
  ghost predicate Partitioned(d: map<nat, Call>, ctn: map<nat, nat>, pending: map<nat, PendingRow>) {
    && (forall id :: id in d <==> id in ctn || id in pending)
    && (forall id :: id in ctn ==> id !in pending)
    && (forall id :: id in pending ==> pending[id] == ToRow(d[id]))
    && (forall id :: id in d ==> id != 0 && d[id].callId == id)
  }

  /** `n` is the row for call `c`: its own function, below the row of its parent call. */
  ghost predicate RowFor(c: Call, nodes: map<nat, Node>, ctn: map<nat, nat>, n: nat) {
    && n in nodes && n != ROOT && nodes[n].fnId == c.fnId
    && if c.parent == 0 then nodes[n].parent == ROOT else c.parent in ctn && nodes[n].parent == ctn[c.parent]
  }

  /** Every folded call sits in the right row; in particular its parent call is folded too. */
  ghost predicate InPlace(d: map<nat, Call>, nodes: map<nat, Node>, ctn: map<nat, nat>) {
    forall id :: id in ctn ==> id in d && RowFor(d[id], nodes, ctn, ctn[id])
  }

  ghost predicate Summed(d: map<nat, Call>, nodes: map<nat, Node>, ctn: map<nat, nat>) {
    forall n :: n in nodes ==>
      && nodes[n].totals == Total(NodeCalls(d, ctn, n))
      && nodes[n].childrenWall == Total(ChildCalls(d, nodes, ctn, n)).wall
  }

  ghost predicate Populated(nodes: map<nat, Node>) {
    forall n :: n in nodes && n != ROOT ==> nodes[n].totals.calls >= 1
  }

  /** `a` is the inverted-time row of a folded call. */
  ghost predicate InvertedRow(d: map<nat, Call>, ctn: map<nat, nat>, a: Anomaly) {
    a.InvertedTime? && a.callId in ctn && a.callId in d && Inverted(d[a.callId])
    && a == InvertedTime(ctn[a.callId], a.callId, d[a.callId].tIn, d[a.callId].tOut)
  }

  /** Exactly one inverted-time row per folded call with inverted clocks. */
  ghost predicate InvertedOnce(d: map<nat, Call>, ctn: map<nat, nat>, anomalies: seq<Anomaly>) {
    forall a: Anomaly :: a.InvertedTime? ==> multiset(anomalies)[a] == if InvertedRow(d, ctn, a) then 1 else 0
  }

  /** A call that can never be parked: the root's function is always known, and no parent is needed. */
  predicate TopOfRoot(parent: nat, fnId: nat) {
    parent == 0 && fnId == 0
  }

  predicate BothTopOfRoot(a: Call, b: Call) {
    TopOfRoot(a.parent, a.fnId) && TopOfRoot(b.parent, b.fnId)
  }

  /** The wire depth of call `id` is what folding it out of the parked rows would recompute. */
  ghost predicate AlignedCall(d: map<nat, Call>, id: nat)
    requires id in d
  {
    if d[id].parent == 0 then d[id].fnId == 0 || d[id].depth == 1
    else d[id].parent in d ==> d[id].depth == d[d[id].parent].depth + 1
  }

  /** The wire depths of the folded calls fit together: below the root at 1, otherwise one deeper than
      the parent; calls that can never be parked only have to agree with each other. */
  ghost predicate Aligned(d: map<nat, Call>, ctn: map<nat, nat>) {
    && (forall id :: id in ctn && id in d ==> AlignedCall(d, id))
    && (forall i, j :: i in ctn && i in d && j in ctn && j in d && BothTopOfRoot(d[i], d[j]) ==>
      d[i].depth == d[j].depth)
  }

  /** Every row's depth is the wire depth of each call folded into it. */
  ghost predicate DepthsOk(d: map<nat, Call>, nodes: map<nat, Node>, ctn: map<nat, nat>)
    requires Shape(nodes)
  {
    forall id :: id in ctn && id in d && ctn[id] in nodes ==> nodes[ctn[id]].depth == d[id].depth
  }

  /** The rows' side of the invariant. */
  ghost predicate RowsInv(t: Tables, d: map<nat, Call>) {
    && TreeOk(t) && t.nodes[ROOT].depth == 0
    && Partitioned(d, t.callToNode, t.pending)
    && InPlace(d, t.nodes, t.callToNode)
    && Summed(d, t.nodes, t.callToNode)
    && Populated(t.nodes)
    && InvertedOnce(d, t.callToNode, t.anomalies)
    && (Aligned(d, t.callToNode) ==> DepthsOk(d, t.nodes, t.callToNode))
  }

  ghost predicate NoTopOfRoot(pending: map<nat, PendingRow>) {
    forall id :: id in pending ==> !TopOfRoot(pending[id].parent, pending[id].fnId)
  }

  /** The invariant tying the tables to the delivered calls `d`. */
  ghost predicate Inv(t: Tables, d: map<nat, Call>) {
    RowsInv(t, d) && NoTopOfRoot(t.pending)
  }

  predicate Resolvable(t: Tables, r: PendingRow) {
    r.fnId in t.dict && (r.parent == 0 || r.parent in t.callToNode)
  }

  /** No parked call could be folded now. */
  ghost predicate Quiescent(t: Tables) {
    forall id :: id in t.pending ==> !Resolvable(t, t.pending[id])
  }

  ghost predicate Settled(t: Tables, d: map<nat, Call>) {
    Inv(t, d) && Quiescent(t)
  }

  // ---- the row-level steps ----

  /** The row an upsert on (`pid`, `fn`) lands on: the existing row of that bucket, or the next fresh one. */
  ghost predicate BucketOf(t: Tables, pid: nat, fn: nat, nid: nat) {
    if nid in t.nodes then t.nodes[nid].parent == pid && t.nodes[nid].fnId == fn
    else nid == t.nextNodeId && forall n :: n in t.nodes ==> !(t.nodes[n].parent == pid && t.nodes[n].fnId == fn)
  }

  function Upsert(nodes: map<nat, Node>, pid: nat, c: Call, nid: nat): map<nat, Node> {
    if nid in nodes then nodes[nid := nodes[nid].(totals := nodes[nid].totals.Plus(Delta(c)))]
    else nodes[nid := Node(pid, c.fnId, c.depth, Delta(c), 0)]
  }

  function BumpParent(nodes: map<nat, Node>, pid: nat, wall: int): map<nat, Node> {
    if pid in nodes then nodes[pid := nodes[pid].(childrenWall := nodes[pid].childrenWall + wall)] else nodes
  }

  /** Folding call `c` into the row `nid` below `pid`. */
  function Fold(t: Tables, pid: nat, c: Call, nid: nat): Tables {
    t.(nodes := BumpParent(Upsert(t.nodes, pid, c, nid), pid, Wall(c)),
       nextNodeId := if nid in t.nodes then t.nextNodeId else nid + 1,
       callToNode := if c.callId in t.callToNode then t.callToNode else t.callToNode[c.callId := nid],
       anomalies := if Inverted(c) then t.anomalies + [InvertedTime(nid, c.callId, c.tIn, c.tOut)] else t.anomalies)
  }

  function Park(t: Tables, c: Call): Tables {
    t.(pending := if c.callId in t.pending then t.pending else t.pending[c.callId := ToRow(c)])
  }

  /** Folding the parked call `id` and deleting its `pending_calls` row. */
  function Resolve(t: Tables, pid: nat, c: Call, nid: nat): Tables {
    Fold(t, pid, c, nid).(pending := t.pending - {c.callId})
  }

  // ---- changing the set of delivered calls without folding any ----

  /** `d` and `d'` agree on the folded calls. */
  ghost predicate AgreeOnFolded(ctn: map<nat, nat>, d: map<nat, Call>, d': map<nat, Call>) {
    forall id :: id in ctn ==> id in d && id in d' && d'[id] == d[id]
  }

  lemma CallsAgree(d: map<nat, Call>, d': map<nat, Call>, nodes: map<nat, Node>, ctn: map<nat, nat>, n: nat)
    requires AgreeOnFolded(ctn, d, d')
    ensures NodeCalls(d', ctn, n) == NodeCalls(d, ctn, n)
    ensures ChildCalls(d', nodes, ctn, n) == ChildCalls(d, nodes, ctn, n)
  {
  }

  lemma SummedAgrees(d: map<nat, Call>, d': map<nat, Call>, nodes: map<nat, Node>, ctn: map<nat, nat>)
    requires Summed(d, nodes, ctn) && AgreeOnFolded(ctn, d, d')
    ensures Summed(d', nodes, ctn)
  {
    hide NodeCalls, ChildCalls, Total, AgreeOnFolded;
    forall n | n in nodes
      ensures nodes[n].totals == Total(NodeCalls(d', ctn, n))
      ensures nodes[n].childrenWall == Total(ChildCalls(d', nodes, ctn, n)).wall
    {
      CallsAgree(d, d', nodes, ctn, n);
    }
  }

  lemma InvertedAgrees(d: map<nat, Call>, d': map<nat, Call>, ctn: map<nat, nat>, anomalies: seq<Anomaly>)
    requires InvertedOnce(d, ctn, anomalies) && AgreeOnFolded(ctn, d, d')
    ensures InvertedOnce(d', ctn, anomalies)
  {
    forall a: Anomaly
      ensures InvertedRow(d', ctn, a) == InvertedRow(d, ctn, a)
    {
    }
  }

  lemma DepthsAgree(d: map<nat, Call>, d': map<nat, Call>, nodes: map<nat, Node>, ctn: map<nat, nat>)
    requires Shape(nodes) && InPlace(d, nodes, ctn) && AgreeOnFolded(ctn, d, d')
    requires Aligned(d, ctn) ==> DepthsOk(d, nodes, ctn)
    ensures Aligned(d', ctn) ==> DepthsOk(d', nodes, ctn)
  {
    hide Shape;
    if Aligned(d', ctn) {
      forall id | id in ctn && id in d
        ensures AlignedCall(d, id)
      {
        assert RowFor(d[id], nodes, ctn, ctn[id]);
        assert AlignedCall(d', id);
      }
      assert Aligned(d, ctn);
    }
  }

  lemma ParkKeepsPartition(t: Tables, d: map<nat, Call>, c: Call)
    requires Partitioned(d, t.callToNode, t.pending) && c.callId !in d && c.callId != 0
    ensures Partitioned(d[c.callId := c], t.callToNode, Park(t, c).pending)
    ensures AgreeOnFolded(t.callToNode, d, d[c.callId := c])
  {
  }

  lemma ParkKeepsRows(t: Tables, d: map<nat, Call>, c: Call)
    requires RowsInv(t, d) && c.callId !in d && c.callId != 0
    ensures RowsInv(Park(t, c), d[c.callId := c])
  {
    hide Shape, UniqueKeys, Summed, InvertedOnce, Partitioned, Populated, Aligned, DepthsOk, RowFor;
    var d' := d[c.callId := c];
    ParkKeepsPartition(t, d, c);
    DepthsAgree(d, d', t.nodes, t.callToNode);
    SummedAgrees(d, d', t.nodes, t.callToNode);
    InvertedAgrees(d, d', t.callToNode, t.anomalies);
  }

  lemma ParkKeepsInv(t: Tables, d: map<nat, Call>, c: Call)
    requires Inv(t, d) && c.callId !in d && c.callId != 0 && !TopOfRoot(c.parent, c.fnId)
    ensures Inv(Park(t, c), d[c.callId := c])
  {
    hide RowsInv;
    ParkKeepsRows(t, d, c);
  }

  // ---- folding keeps the invariant ----

  /** `pid` is the row a call with this parent hangs from. */
  predicate ParentRow(t: Tables, parent: nat, pid: nat) {
    if parent == 0 then pid == ROOT else parent in t.callToNode && t.callToNode[parent] == pid
  }

  ghost predicate CanFold(t: Tables, pid: nat, c: Call, nid: nat) {
    TreeOk(t) && pid in t.nodes && c.fnId in t.dict && BucketOf(t, pid, c.fnId, nid)
  }

  lemma FoundBucket(t: Tables, pid: nat, c: Call, nid: nat)
    requires TreeOk(t) && pid in t.nodes && c.fnId in t.dict
    requires nid in t.nodes && t.nodes[nid].parent == pid && t.nodes[nid].fnId == c.fnId
    ensures CanFold(t, pid, c, nid) && pid != nid
  {
  }

  lemma FreshBucket(t: Tables, pid: nat, c: Call)
    requires TreeOk(t) && pid in t.nodes && c.fnId in t.dict
    requires forall n :: n in t.nodes ==> !(t.nodes[n].parent == pid && t.nodes[n].fnId == c.fnId)
    ensures CanFold(t, pid, c, t.nextNodeId) && t.nextNodeId !in t.nodes
  {
  }

  lemma CanFoldFacts(t: Tables, pid: nat, c: Call, nid: nat)
    requires CanFold(t, pid, c, nid)
    ensures TreeOk(t) && pid in t.nodes && c.fnId in t.dict && ROOT <= pid < nid
    ensures nid !in t.nodes ==> nid == t.nextNodeId
    ensures nid in t.nodes ==> t.nodes[nid].parent == pid && t.nodes[nid].fnId == c.fnId
    ensures forall n :: n in t.nodes && t.nodes[n].parent == pid && t.nodes[n].fnId == c.fnId ==> n == nid
  {
  }

  /** The sum columns of row `n`; a row that does not exist yet counts as all zero. */
  function TotalsOf(nodes: map<nat, Node>, n: nat): Totals {
    if n in nodes then nodes[n].totals else ZERO
  }

  function ChildrenOf(nodes: map<nat, Node>, n: nat): int {
    if n in nodes then nodes[n].childrenWall else 0
  }

  /** `nodes'` is `nodes` with `c` added to the totals of row `nid` and to the children column of row `pid`. */
  ghost predicate Adds(nodes: map<nat, Node>, nodes': map<nat, Node>, pid: nat, nid: nat, c: Call) {
    forall n :: n in nodes' ==>
      && nodes'[n].totals == (if n == nid then Delta(c).Plus(TotalsOf(nodes, n)) else TotalsOf(nodes, n))
      && nodes'[n].childrenWall == ChildrenOf(nodes, n) + if n == pid then Wall(c) else 0
  }

  /** `nodes'` keeps every row's key and depth and adds, if missing, the row `nid` for `c` below `pid`. */
  ghost predicate AddsRow(nodes: map<nat, Node>, nodes': map<nat, Node>, pid: nat, nid: nat, c: Call) {
    && nodes'.Keys == nodes.Keys + {nid}
    && nodes'[nid].parent == pid && nodes'[nid].fnId == c.fnId
    && (nid !in nodes ==> nodes'[nid].depth == c.depth)
    && (forall n :: n in nodes ==> nodes'[n].parent == nodes[n].parent && nodes'[n].fnId == nodes[n].fnId)
    && (forall n :: n in nodes ==> nodes'[n].depth == nodes[n].depth)
  }

  lemma FoldAddsRow(nodes: map<nat, Node>, pid: nat, nid: nat, c: Call)
    requires pid in nodes && (nid in nodes ==> nodes[nid].parent == pid && nodes[nid].fnId == c.fnId)
    ensures AddsRow(nodes, BumpParent(Upsert(nodes, pid, c, nid), pid, Wall(c)), pid, nid, c)
  {
    hide Wall, Delta;
  }

  lemma FoldAdds(nodes: map<nat, Node>, pid: nat, nid: nat, c: Call)
    requires pid in nodes && pid != nid
    ensures Adds(nodes, BumpParent(Upsert(nodes, pid, c, nid), pid, Wall(c)), pid, nid, c)
  {
    hide Wall, Delta;
    if nid in nodes {
      PlusCommutes(nodes[nid].totals, Delta(c));
    } else {
      PlusZero(Delta(c));
    }
  }

  /** Row by row, what a fold does. */
  lemma FoldColumns(t: Tables, pid: nat, c: Call, nid: nat)
    requires CanFold(t, pid, c, nid)
    ensures pid in t.nodes && pid != nid && nid != ROOT
    ensures AddsRow(t.nodes, Fold(t, pid, c, nid).nodes, pid, nid, c)
    ensures Adds(t.nodes, Fold(t, pid, c, nid).nodes, pid, nid, c)
  {
    hide CanFold, TreeOk, Adds, AddsRow, Upsert, BumpParent;
    CanFoldFacts(t, pid, c, nid);
    FoldAddsRow(t.nodes, pid, nid, c);
    FoldAdds(t.nodes, pid, nid, c);
  }

  lemma ShapeExtends(nodes: map<nat, Node>, nodes': map<nat, Node>, pid: nat, nid: nat, c: Call)
    requires Shape(nodes) && AddsRow(nodes, nodes', pid, nid, c) && pid in nodes && ROOT <= pid < nid
    ensures Shape(nodes') && Grows(nodes, nodes') && NULL !in nodes'
  {
  }

  lemma UniqueKeysExtends(nodes: map<nat, Node>, nodes': map<nat, Node>, pid: nat, nid: nat, c: Call)
    requires UniqueKeys(nodes) && AddsRow(nodes, nodes', pid, nid, c)
    requires forall n :: n in nodes && nodes[n].parent == pid && nodes[n].fnId == c.fnId ==> n == nid
    ensures UniqueKeys(nodes')
  {
    forall m, n | m in nodes' && n in nodes' && nodes'[m].parent == nodes'[n].parent && nodes'[m].fnId == nodes'[n].fnId
      ensures m == n
    {
      if m != nid && n != nid {
        assert m in nodes && n in nodes;
      }
    }
  }

  lemma FoldGrowsTree(t: Tables, pid: nat, c: Call, nid: nat)
    requires CanFold(t, pid, c, nid)
    ensures TreeOk(Fold(t, pid, c, nid)) && Grows(t.nodes, Fold(t, pid, c, nid).nodes)
    ensures nid in Fold(t, pid, c, nid).nodes && pid != nid && NULL !in Fold(t, pid, c, nid).nodes
  {
    hide CanFold, Upsert, BumpParent, Shape, UniqueKeys, Adds, Grows;
    var t' := Fold(t, pid, c, nid);
    CanFoldFacts(t, pid, c, nid);
    FoldColumns(t, pid, c, nid);
    ShapeExtends(t.nodes, t'.nodes, pid, nid, c);
    UniqueKeysExtends(t.nodes, t'.nodes, pid, nid, c);
    forall n | n in t'.nodes
      ensures n < t'.nextNodeId && t'.nodes[n].fnId in t'.dict
    {
      assert n in t.nodes || n == nid;
    }
  }

  lemma NodeCallsAfter(d: map<nat, Call>, ctn: map<nat, nat>, id: nat, nid: nat, n: nat)
    requires id in d && id !in ctn
    ensures NodeCalls(d, ctn[id := nid], n) == if n == nid then NodeCalls(d, ctn, n)[id := d[id]]
      else NodeCalls(d, ctn, n)
    ensures id !in NodeCalls(d, ctn, n)
  {
  }

  lemma ChildCallsAfter(d: map<nat, Call>, nodes: map<nat, Node>, nodes': map<nat, Node>, ctn: map<nat, nat>,
                        id: nat, pid: nat, nid: nat, n: nat)
    requires id in d && id !in ctn && Grows(nodes, nodes')
    requires forall i :: i in ctn ==> ctn[i] in nodes
    requires nid in nodes' && nodes'[nid].parent == pid
    ensures ChildCalls(d, nodes', ctn[id := nid], n) ==
            if n == pid then ChildCalls(d, nodes, ctn, n)[id := d[id]] else ChildCalls(d, nodes, ctn, n)
    ensures id !in ChildCalls(d, nodes, ctn, n)
  {
  }

  /** No call is folded into, or below, a row that does not exist yet. */
  lemma FreshRowIsEmpty(d: map<nat, Call>, nodes: map<nat, Node>, ctn: map<nat, nat>, n: nat)
    requires Shape(nodes) && n !in nodes && n != NULL
    requires forall i :: i in ctn ==> ctn[i] in nodes
    ensures NodeCalls(d, ctn, n) == map[] && ChildCalls(d, nodes, ctn, n) == map[]
  {
  }

  /** The columns match the folded calls, also for rows that do not exist yet. */
  lemma SummedAt(d: map<nat, Call>, nodes: map<nat, Node>, ctn: map<nat, nat>, n: nat)
    requires Shape(nodes) && Summed(d, nodes, ctn) && n != NULL
    requires forall i :: i in ctn ==> ctn[i] in nodes
    ensures TotalsOf(nodes, n) == Total(NodeCalls(d, ctn, n))
    ensures ChildrenOf(nodes, n) == Total(ChildCalls(d, nodes, ctn, n)).wall
  {
    if n !in nodes {
      FreshRowIsEmpty(d, nodes, ctn, n);
    }
  }

  lemma NodeTotalAfter(d: map<nat, Call>, ctn: map<nat, nat>, id: nat, nid: nat, n: nat)
    requires id in d && id !in ctn
    ensures Total(NodeCalls(d, ctn[id := nid], n)) ==
            if n == nid then Delta(d[id]).Plus(Total(NodeCalls(d, ctn, n))) else Total(NodeCalls(d, ctn, n))
  {
    NodeCallsAfter(d, ctn, id, nid, n);
    hide NodeCalls;
    TotalInsert(NodeCalls(d, ctn, n), id, d[id]);
  }

  lemma ChildWallAfter(d: map<nat, Call>, nodes: map<nat, Node>, nodes': map<nat, Node>, ctn: map<nat, nat>,
                       id: nat, pid: nat, nid: nat, n: nat)
    requires id in d && id !in ctn && Grows(nodes, nodes')
    requires forall i :: i in ctn ==> ctn[i] in nodes
    requires nid in nodes' && nodes'[nid].parent == pid
    ensures Total(ChildCalls(d, nodes', ctn[id := nid], n)).wall ==
            Total(ChildCalls(d, nodes, ctn, n)).wall + if n == pid then Wall(d[id]) else 0
  {
    ChildCallsAfter(d, nodes, nodes', ctn, id, pid, nid, n);
    hide ChildCalls;
    TotalInsert(ChildCalls(d, nodes, ctn, n), id, d[id]);
  }

  lemma SumsExtend(d: map<nat, Call>, nodes: map<nat, Node>, nodes': map<nat, Node>, ctn: map<nat, nat>,
                   id: nat, pid: nat, nid: nat)
    requires Shape(nodes) && Summed(d, nodes, ctn) && Grows(nodes, nodes')
    requires forall i :: i in ctn ==> ctn[i] in nodes
    requires id in d && id !in ctn
    requires nid in nodes' && nodes'[nid].parent == pid && NULL !in nodes'
    requires Adds(nodes, nodes', pid, nid, d[id])
    ensures Summed(d, nodes', ctn[id := nid])
  {
    hide Shape, NodeCalls, ChildCalls, Grows, TotalsOf, ChildrenOf, Delta, Wall;
    forall n | n in nodes'
      ensures nodes'[n].totals == Total(NodeCalls(d, ctn[id := nid], n))
      ensures nodes'[n].childrenWall == Total(ChildCalls(d, nodes', ctn[id := nid], n)).wall
    {
      SummedAt(d, nodes, ctn, n);
      NodeTotalAfter(d, ctn, id, nid, n);
      ChildWallAfter(d, nodes, nodes', ctn, id, pid, nid, n);
    }
  }

  /** The sums do not look at the wire depth. */
  lemma AddsIgnoresDepth(nodes: map<nat, Node>, nodes': map<nat, Node>, pid: nat, nid: nat, c: Call, c': Call)
    requires ToRow(c) == ToRow(c') && Adds(nodes, nodes', pid, nid, c)
    ensures Adds(nodes, nodes', pid, nid, c')
  {
    assert Delta(c) == Delta(c') && Wall(c) == Wall(c');
  }

  /** A state in which `c`, delivered as `d[c.callId]`, is not folded yet. */
  ghost predicate Unfolded(t: Tables, d: map<nat, Call>, c: Call) {
    c.callId in d && c.callId !in t.callToNode && ToRow(c) == ToRow(d[c.callId])
  }

  lemma FoldSums(t: Tables, d: map<nat, Call>, pid: nat, c: Call, nid: nat)
    requires CanFold(t, pid, c, nid) && Unfolded(t, d, c)
    requires forall i :: i in t.callToNode ==> t.callToNode[i] in t.nodes
    requires Summed(d, t.nodes, t.callToNode)
    ensures Summed(d, Fold(t, pid, c, nid).nodes, t.callToNode[c.callId := nid])
  {
    hide Fold, CanFold, Shape, UniqueKeys, Summed, Grows, Adds;
    CanFoldFacts(t, pid, c, nid);
    FoldColumns(t, pid, c, nid);
    FoldGrowsTree(t, pid, c, nid);
    AddsIgnoresDepth(t.nodes, Fold(t, pid, c, nid).nodes, pid, nid, c, d[c.callId]);
    SumsExtend(d, t.nodes, Fold(t, pid, c, nid).nodes, t.callToNode, c.callId, pid, nid);
  }

  lemma RowForGrows(c: Call, nodes: map<nat, Node>, ctn: map<nat, nat>, nodes': map<nat, Node>, ctn': map<nat, nat>,
                    n: nat)
    requires RowFor(c, nodes, ctn, n) && Grows(nodes, nodes')
    requires forall i :: i in ctn ==> i in ctn' && ctn'[i] == ctn[i]
    ensures RowFor(c, nodes', ctn', n)
  {
  }

  lemma RowForNew(t: Tables, d: map<nat, Call>, pid: nat, c: Call, nid: nat, nodes': map<nat, Node>)
    requires ParentRow(t, c.parent, pid) && Unfolded(t, d, c)
    requires nid in nodes' && nid != ROOT && nodes'[nid].fnId == c.fnId && nodes'[nid].parent == pid
    ensures c.callId in d && RowFor(d[c.callId], nodes', t.callToNode[c.callId := nid], nid)
    ensures forall i :: i in t.callToNode ==> i != c.callId
  {
  }

  lemma FoldInPlace(t: Tables, d: map<nat, Call>, pid: nat, c: Call, nid: nat)
    requires CanFold(t, pid, c, nid) && ParentRow(t, c.parent, pid) && Unfolded(t, d, c)
    requires InPlace(d, t.nodes, t.callToNode)
    ensures InPlace(d, Fold(t, pid, c, nid).nodes, t.callToNode[c.callId := nid])
  {
    hide Fold, CanFold, Adds, TreeOk, RowFor, Grows, ParentRow, Unfolded;
    FoldColumns(t, pid, c, nid);
    FoldGrowsTree(t, pid, c, nid);
    var nodes', ctn' := Fold(t, pid, c, nid).nodes, t.callToNode[c.callId := nid];
    RowForNew(t, d, pid, c, nid, nodes');
    forall id | id in ctn'
      ensures id in d && RowFor(d[id], nodes', ctn', ctn'[id])
    {
      if id != c.callId {
        RowForGrows(d[id], t.nodes, t.callToNode, nodes', ctn', ctn'[id]);
      }
    }
  }

  lemma FoldPopulated(t: Tables, pid: nat, c: Call, nid: nat)
    requires CanFold(t, pid, c, nid) && Populated(t.nodes)
    ensures Populated(Fold(t, pid, c, nid).nodes)
  {
    hide Fold, CanFold;
    FoldColumns(t, pid, c, nid);
  }

  lemma FoldInverted(t: Tables, d: map<nat, Call>, pid: nat, c: Call, nid: nat)
    requires InvertedOnce(d, t.callToNode, t.anomalies) && Unfolded(t, d, c)
    ensures InvertedOnce(d, t.callToNode[c.callId := nid], Fold(t, pid, c, nid).anomalies)
  {
    hide Upsert, BumpParent;
    var ctn' := t.callToNode[c.callId := nid];
    var anomalies' := Fold(t, pid, c, nid).anomalies;
    var row := InvertedTime(nid, c.callId, c.tIn, c.tOut);
    assert multiset(t.anomalies + [row]) == multiset(t.anomalies) + multiset{row};
    forall a: Anomaly | a.InvertedTime?
      ensures multiset(anomalies')[a] == if InvertedRow(d, ctn', a) then 1 else 0
    {
      assert InvertedRow(d, ctn', a) <==> InvertedRow(d, t.callToNode, a) || (Inverted(c) && a == row);
    }
  }

  /** The depth given to the fold of `c` is its wire depth whenever the folded calls' depths fit together. */
  ghost predicate DepthPremise(t: Tables, d: map<nat, Call>, c: Call) {
    Aligned(d, t.callToNode[c.callId := 0]) ==> c.callId in d && c.depth == d[c.callId].depth
  }

  lemma DepthsExtend(d: map<nat, Call>, nodes: map<nat, Node>, nodes': map<nat, Node>, ctn: map<nat, nat>,
                     id: nat, nid: nat)
    requires Shape(nodes) && Shape(nodes') && DepthsOk(d, nodes, ctn)
    requires nodes'.Keys == nodes.Keys + {nid}
    requires forall n :: n in nodes ==> nodes'[n].depth == nodes[n].depth
    requires forall i :: i in ctn ==> ctn[i] in nodes
    requires id in d && nodes'[nid].depth == d[id].depth
    ensures DepthsOk(d, nodes', ctn[id := nid])
  {
  }

  /** Two calls of one bucket have the same wire depth if the folded calls' depths fit together. */
  lemma SameBucketDepth(t: Tables, d: map<nat, Call>, pid: nat, c: Call, nid: nat, k: nat)
    requires Shape(t.nodes) && InPlace(d, t.nodes, t.callToNode) && DepthsOk(d, t.nodes, t.callToNode)
    requires ParentRow(t, c.parent, pid) && Unfolded(t, d, c) && Aligned(d, t.callToNode[c.callId := nid])
    requires k in t.callToNode && t.callToNode[k] == nid
    requires nid in t.nodes && t.nodes[nid].parent == pid && t.nodes[nid].fnId == c.fnId
    ensures k in d && t.nodes[nid].depth == d[k].depth == d[c.callId].depth
  {
    hide Aligned, Shape, DepthsOk;
    AlignedAt(d, t.callToNode, c.callId, nid, k);
    assert RowFor(d[k], t.nodes, t.callToNode, nid);
    RootTakesNoCall(t, d, d[k].parent);
    RootTakesNoCall(t, d, c.parent);
    FoldedDepthIs(d, t.nodes, t.callToNode, k);
    if d[k].parent != 0 {
      FoldedDepthIs(d, t.nodes, t.callToNode, d[k].parent);
    }
    if c.parent != 0 {
      FoldedDepthIs(d, t.nodes, t.callToNode, c.parent);
    }
  }

  lemma FoldedDepthIs(d: map<nat, Call>, nodes: map<nat, Node>, ctn: map<nat, nat>, id: nat)
    requires Shape(nodes) && InPlace(d, nodes, ctn) && DepthsOk(d, nodes, ctn) && id in ctn
    ensures id in d && ctn[id] in nodes && nodes[ctn[id]].depth == d[id].depth
  {
    assert RowFor(d[id], nodes, ctn, ctn[id]);
  }

  lemma RootTakesNoCall(t: Tables, d: map<nat, Call>, id: nat)
    requires InPlace(d, t.nodes, t.callToNode)
    ensures id in t.callToNode ==> t.callToNode[id] != ROOT
  {
    if id in t.callToNode {
      assert RowFor(d[id], t.nodes, t.callToNode, t.callToNode[id]);
    }
  }

  lemma AlignedAt(d: map<nat, Call>, ctn: map<nat, nat>, id: nat, nid: nat, k: nat)
    requires Aligned(d, ctn[id := nid]) && id in d && k in ctn && k in d
    ensures AlignedCall(d, id) && AlignedCall(d, k)
    ensures BothTopOfRoot(d[id], d[k]) ==> d[id].depth == d[k].depth
  {
    hide AlignedCall;
    assert id in ctn[id := nid] && k in ctn[id := nid];
  }

  /** A row other than the root has at least one call folded into it. */
  lemma BucketHasCall(d: map<nat, Call>, nodes: map<nat, Node>, ctn: map<nat, nat>, n: nat) returns (k: nat)
    requires Summed(d, nodes, ctn) && Populated(nodes) && n in nodes && n != ROOT
    ensures k in ctn && k in d && ctn[k] == n
  {
    hide ChildCalls;
    TotalCounts(NodeCalls(d, ctn, n));
    k :| k in NodeCalls(d, ctn, n);
  }

  lemma FoldDepths(t: Tables, d: map<nat, Call>, pid: nat, c: Call, nid: nat)
    requires CanFold(t, pid, c, nid) && ParentRow(t, c.parent, pid) && Unfolded(t, d, c)
    requires TreeOk(t) && InPlace(d, t.nodes, t.callToNode) && Summed(d, t.nodes, t.callToNode) && Populated(t.nodes)
    requires Aligned(d, t.callToNode) ==> DepthsOk(d, t.nodes, t.callToNode)
    requires DepthPremise(t, d, c)
    requires Aligned(d, t.callToNode[c.callId := nid]) && TreeOk(Fold(t, pid, c, nid))
    ensures DepthsOk(d, Fold(t, pid, c, nid).nodes, t.callToNode[c.callId := nid])
  {
    hide Fold, CanFold, UniqueKeys, Adds, Aligned, DepthsOk, Shape, Grows, ParentRow, InPlace, Summed, Populated;
    FoldColumns(t, pid, c, nid);
    FoldGrowsTree(t, pid, c, nid);
    CanFoldFacts(t, pid, c, nid);
    AlignedParts(d, t.callToNode, c.callId, nid);
    FoldedRowsExist(d, t.nodes, t.callToNode);
    if nid in t.nodes {
      var k := BucketHasCall(d, t.nodes, t.callToNode, nid);
      SameBucketDepth(t, d, pid, c, nid, k);
    }
    DepthsExtend(d, t.nodes, Fold(t, pid, c, nid).nodes, t.callToNode, c.callId, nid);
  }

  lemma FoldedRowsExist(d: map<nat, Call>, nodes: map<nat, Node>, ctn: map<nat, nat>)
    requires InPlace(d, nodes, ctn)
    ensures forall i :: i in ctn ==> ctn[i] in nodes
  {
    forall i | i in ctn
      ensures ctn[i] in nodes
    {
      assert RowFor(d[i], nodes, ctn, ctn[i]);
    }
  }

  lemma AlignedParts(d: map<nat, Call>, ctn: map<nat, nat>, id: nat, nid: nat)
    requires Aligned(d, ctn[id := nid]) && id in d && id !in ctn
    ensures Aligned(d, ctn) && Aligned(d, ctn[id := 0]) && AlignedCall(d, id)
  {
    hide AlignedCall;
    forall i | i in ctn
      ensures i in ctn[id := nid]
    {
    }
    assert id in ctn[id := nid];
  }

  lemma ResolvePartition(t: Tables, d: map<nat, Call>, pid: nat, c: Call, nid: nat)
    requires Partitioned(d, t.callToNode, t.pending)
    requires c.callId in t.pending && ToRow(c) == t.pending[c.callId]
    ensures Partitioned(d, t.callToNode[c.callId := nid], t.pending - {c.callId})
    ensures Unfolded(t, d, c)
  {
  }

  /** What a fold of the parked call `c` needs. */
  ghost predicate CanResolve(t: Tables, d: map<nat, Call>, pid: nat, c: Call, nid: nat) {
    && CanFold(t, pid, c, nid) && ParentRow(t, c.parent, pid)
    && c.callId in t.pending && ToRow(c) == t.pending[c.callId]
    && DepthPremise(t, d, c)
  }

  /** `a` is `a0` with only inverted-time rows added. */
  ghost predicate AppendsInverted(a0: seq<Anomaly>, a: seq<Anomaly>) {
    a0 <= a && forall i :: |a0| <= i < |a| ==> a[i].InvertedTime?
  }

  lemma FoldAppends(t: Tables, pid: nat, c: Call, nid: nat)
    ensures AppendsInverted(t.anomalies, Fold(t, pid, c, nid).anomalies)
  {
    hide Upsert, BumpParent;
  }

  lemma ResolveFields(t: Tables, pid: nat, c: Call, nid: nat)
    requires c.callId !in t.callToNode
    ensures Resolve(t, pid, c, nid) ==
            Tables(t.dict, Fold(t, pid, c, nid).nodes, Fold(t, pid, c, nid).nextNodeId, t.callToNode[c.callId := nid],
                   t.pending - {c.callId}, Fold(t, pid, c, nid).anomalies)
    ensures Fold(t, pid, c, nid).dict == t.dict
  {
  }

  lemma ResolveKeepsRows(t: Tables, d: map<nat, Call>, pid: nat, c: Call, nid: nat)
    requires RowsInv(t, d) && CanResolve(t, d, pid, c, nid)
    ensures RowsInv(Resolve(t, pid, c, nid), d)
  {
    hide Fold, Resolve, CanFold, Shape, UniqueKeys, ParentRow, Partitioned, InPlace, Summed, InvertedOnce, Aligned,
         DepthsOk, Populated, DepthPremise, Adds;
    ResolvePartition(t, d, pid, c, nid);
    ResolveFields(t, pid, c, nid);
    FoldedRowsExist(d, t.nodes, t.callToNode);
    FoldGrowsTree(t, pid, c, nid);
    FoldColumns(t, pid, c, nid);
    FoldInPlace(t, d, pid, c, nid);
    FoldSums(t, d, pid, c, nid);
    FoldPopulated(t, pid, c, nid);
    FoldInverted(t, d, pid, c, nid);
    RootDepthStays(t, pid, c, nid);
    if Aligned(d, t.callToNode[c.callId := nid]) {
      FoldDepths(t, d, pid, c, nid);
    }
  }

  lemma RootDepthStays(t: Tables, pid: nat, c: Call, nid: nat)
    requires CanFold(t, pid, c, nid)
    ensures var nodes' := Fold(t, pid, c, nid).nodes;
            ROOT in t.nodes && ROOT in nodes' && nodes'[ROOT].depth == t.nodes[ROOT].depth
  {
    hide Fold, CanFold, UniqueKeys, Adds;
    CanFoldFacts(t, pid, c, nid);
    FoldColumns(t, pid, c, nid);
  }

  lemma ResolveKeepsInv(t: Tables, d: map<nat, Call>, pid: nat, c: Call, nid: nat)
    requires Inv(t, d) && CanResolve(t, d, pid, c, nid)
    ensures Inv(Resolve(t, pid, c, nid), d)
  {
    hide RowsInv, CanResolve;
    ResolveKeepsRows(t, d, pid, c, nid);
  }

  /** Folding a call seen for the first time amounts to parking it and resolving it at once. */
  lemma FoldNewKeepsInv(t: Tables, d: map<nat, Call>, pid: nat, c: Call, nid: nat)
    requires Inv(t, d) && c.callId !in d && c.callId != 0
    requires CanFold(t, pid, c, nid) && ParentRow(t, c.parent, pid)
    ensures Inv(Fold(t, pid, c, nid), d[c.callId := c])
  {
    hide RowsInv, Park, Fold, Resolve, CanFold, ParentRow;
    var d' := d[c.callId := c];
    var t1 := Park(t, c);
    ParkKeepsRows(t, d, c);
    assert c.callId !in t.pending && c.callId !in t.callToNode by { KnownIsDelivered(t, d); }
    ParkedThenResolved(t, pid, c, nid);
    ResolveKeepsRows(t1, d', pid, c, nid);
    FoldKeepsPending(t, pid, c, nid);
  }

  lemma FoldKeepsPending(t: Tables, pid: nat, c: Call, nid: nat)
    ensures Fold(t, pid, c, nid).pending == t.pending
  {
  }

  lemma KnownIsDelivered(t: Tables, d: map<nat, Call>)
    requires Inv(t, d)
    ensures forall id :: id in d <==> id in t.callToNode || id in t.pending
  {
  }

  lemma ParkedThenResolved(t: Tables, pid: nat, c: Call, nid: nat)
    requires c.callId !in t.pending && CanFold(t, pid, c, nid) && ParentRow(t, c.parent, pid)
    ensures Resolve(Park(t, c), pid, c, nid) == Fold(t, pid, c, nid)
    ensures CanFold(Park(t, c), pid, c, nid) && ParentRow(Park(t, c), c.parent, pid)
    ensures c.callId in Park(t, c).pending && Park(t, c).pending[c.callId] == ToRow(c)
    ensures Park(t, c).callToNode == t.callToNode
  {
    assert Park(t, c).pending - {c.callId} == t.pending;
  }

  lemma ParentRowExists(t: Tables, d: map<nat, Call>, parent: nat, pid: nat)
    requires Inv(t, d) && ParentRow(t, parent, pid)
    ensures pid in t.nodes
  {
    FoldedRowsExist(d, t.nodes, t.callToNode);
  }

  /** A parked call's wire depth, if the folded calls' depths fit together with it. */
  lemma ParkedDepth(t: Tables, d: map<nat, Call>, id: nat, pid: nat)
    requires Inv(t, d) && id in t.pending && ParentRow(t, t.pending[id].parent, pid)
    requires Aligned(d, t.callToNode[id := 0])
    ensures id in d && Aligned(d, t.callToNode) && pid in t.nodes && d[id].depth == t.nodes[pid].depth + 1
  {
    hide Shape, UniqueKeys, InPlace, Summed, Populated, InvertedOnce, Aligned, DepthsOk;
    AlignedParts(d, t.callToNode, id, 0);
    if d[id].parent != 0 {
      FoldedDepthIs(d, t.nodes, t.callToNode, d[id].parent);
    }
    ParentRowExists(t, d, d[id].parent, pid);
  }

  // ---- the dictionary and finalize ----

  /** New dictionary entries. */
  lemma DictKeepsInv(t: Tables, d: map<nat, Call>, dict': map<nat, DictEntry>)
    requires Inv(t, d) && t.dict.Keys <= dict'.Keys
    ensures Inv(t.(dict := dict'), d)
  {
    hide Shape, UniqueKeys, Partitioned, InPlace, Summed, Populated, InvertedOnce, Aligned, DepthsOk;
  }

  /** The calls the tables still know after the parked ones have been dropped. */
  ghost function FoldedOnly(t: Tables, d: map<nat, Call>): map<nat, Call> {
    map id | id in d && id in t.callToNode :: d[id]
  }

  /** `rows` are verdicts on parked calls, not inverted-time rows. */
  ghost predicate NoInverted(rows: seq<Anomaly>) {
    forall a :: a in rows ==> !a.InvertedTime?
  }

  lemma DropKeepsInverted(d: map<nat, Call>, ctn: map<nat, nat>, anomalies: seq<Anomaly>, rows: seq<Anomaly>)
    requires InvertedOnce(d, ctn, anomalies) && NoInverted(rows)
    ensures InvertedOnce(d, ctn, anomalies + rows)
  {
    assert multiset(anomalies + rows) == multiset(anomalies) + multiset(rows);
    forall a: Anomaly | a.InvertedTime?
      ensures multiset(rows)[a] == 0
    {
      assert a !in rows;
    }
  }

  lemma FoldedOnlyAgrees(t: Tables, d: map<nat, Call>)
    requires Partitioned(d, t.callToNode, t.pending)
    ensures AgreeOnFolded(t.callToNode, d, FoldedOnly(t, d))
    ensures Partitioned(FoldedOnly(t, d), t.callToNode, map[])
  {
  }

  /** Dropping the parked calls, as finalize does, keeps the rest consistent. */
  lemma DropKeepsInv(t: Tables, d: map<nat, Call>, rows: seq<Anomaly>)
    requires Inv(t, d) && NoInverted(rows)
    ensures Inv(t.(pending := map[], anomalies := t.anomalies + rows), FoldedOnly(t, d))
  {
    hide Shape, UniqueKeys, Partitioned, Summed, Populated, InvertedOnce, Aligned, DepthsOk, FoldedOnly, RowFor;
    FoldedOnlyAgrees(t, d);
    DepthsAgree(d, FoldedOnly(t, d), t.nodes, t.callToNode);
    SummedAgrees(d, FoldedOnly(t, d), t.nodes, t.callToNode);
    InvertedAgrees(d, FoldedOnly(t, d), t.callToNode, t.anomalies);
    DropKeepsInverted(FoldedOnly(t, d), t.callToNode, t.anomalies, rows);
  }
}
