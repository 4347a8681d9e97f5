/** The tables of a settled trace are the calling-context tree of the delivered calls, whatever
    order, batching and repetition delivered them. */
module Refinement {
  import opened Wire
  import opened CallTree
  import opened TraceTables

  // ---- rows and contexts ----

  /** The calling context a row stands for. */
  ghost function NodePath(nodes: map<nat, Node>, n: nat): Path
    requires Shape(nodes) && n in nodes
    decreases n
  {
    if n == ROOT then Top else Under(NodePath(nodes, nodes[n].parent), nodes[n].fnId)
  }

  lemma {:induction false} NodePathInjective(nodes: map<nat, Node>, m: nat, n: nat)
    requires Shape(nodes) && UniqueKeys(nodes)
    requires m in nodes && n in nodes && NodePath(nodes, m) == NodePath(nodes, n)
    ensures m == n
    decreases m
  {
    if m != ROOT && n != ROOT {
      NodePathInjective(nodes, nodes[m].parent, nodes[n].parent);
    }
  }

  lemma DistinctPaths(nodes: map<nat, Node>)
    requires Shape(nodes) && UniqueKeys(nodes)
    ensures forall m, n :: m in nodes && n in nodes && NodePath(nodes, m) == NodePath(nodes, n) ==> m == n
  {
    forall m, n | m in nodes && n in nodes && NodePath(nodes, m) == NodePath(nodes, n)
      ensures m == n
    {
      NodePathInjective(nodes, m, n);
    }
  }

  /** A folded call's row stands for the call's own context. */
  lemma {:induction false} FoldedHasPath(t: Tables, d: map<nat, Call>, id: nat)
    requires TreeOk(t) && InPlace(d, t.nodes, t.callToNode) && id in t.callToNode
    ensures t.callToNode[id] in t.nodes && HasPath(d, t.dict.Keys, id, NodePath(t.nodes, t.callToNode[id]))
    decreases t.callToNode[id]
  {
    hide UniqueKeys;
    assert RowFor(d[id], t.nodes, t.callToNode, t.callToNode[id]);
    if d[id].parent != 0 {
      FoldedHasPath(t, d, d[id].parent);
    }
  }

  /** In a quiescent state every call that has a calling context is folded. */
  lemma {:induction false} GroundedIsFolded(t: Tables, d: map<nat, Call>, id: nat, p: Path)
    requires Partitioned(d, t.callToNode, t.pending) && Quiescent(t)
    requires HasPath(d, t.dict.Keys, id, p)
    ensures id in t.callToNode
    decreases p
  {
    if d[id].parent != 0 {
      GroundedIsFolded(t, d, d[id].parent, p.up);
    }
    if id in t.pending {
      assert Resolvable(t, t.pending[id]);
    }
  }

  // ---- the folded calls are the least fixpoint ----

  lemma FoldedIffGrounded(t: Tables, d: map<nat, Call>, id: nat)
    requires Settled(t, d)
    ensures id in t.callToNode <==> id in d && Grounded(d, t.dict.Keys, id)
    ensures id in t.callToNode ==>
              t.callToNode[id] in t.nodes && NodePath(t.nodes, t.callToNode[id]) == PathOf(d, t.dict.Keys, id)
  {
    hide Shape, UniqueKeys, InPlace, Summed, Populated, InvertedOnce, Aligned, DepthsOk, Quiescent, NodePath;
    if id in t.callToNode {
      FoldedHasPath(t, d, id);
      PathUnique(d, t.dict.Keys, id, NodePath(t.nodes, t.callToNode[id]), PathOf(d, t.dict.Keys, id));
    } else if id in d && Grounded(d, t.dict.Keys, id) {
      GroundedIsFolded(t, d, id, PathOf(d, t.dict.Keys, id));
    }
  }

  /** Folded calls are exactly the least set closed under "known function, parent absent or in the
      set"; everything else delivered is parked, with its payload intact. */
  lemma SettledIsLeastFixpoint(t: Tables, d: map<nat, Call>)
    requires Settled(t, d)
    ensures t.callToNode.Keys == GroundedIds(d, t.dict.Keys)
    ensures t.pending.Keys == Parked(d, t.dict.Keys)
    ensures forall id :: id in t.pending ==> t.pending[id] == ToRow(d[id])
  {
    hide Shape, UniqueKeys, InPlace, Summed, Populated, InvertedOnce, Aligned, DepthsOk, Quiescent, Grounded;
    forall id
      ensures id in t.callToNode <==> id in GroundedIds(d, t.dict.Keys)
    {
      FoldedIffGrounded(t, d, id);
    }
  }

  // ---- the node table is the tree ----

  ghost function RowOf(n: Node): TreeRow {
    TreeRow(n.totals, n.childrenWall)
  }

  /** The node table with row ids replaced by the contexts they stand for. */
  ghost function ByPath(t: Tables): map<Path, TreeRow>
    requires TreeOk(t)
  {
    DistinctPaths(t.nodes);
    map n | n in t.nodes :: NodePath(t.nodes, n) := RowOf(t.nodes[n])
  }

  lemma NodeCallsAreCallsAt(t: Tables, d: map<nat, Call>, n: nat)
    requires Settled(t, d) && n in t.nodes
    ensures NodeCalls(d, t.callToNode, n) == CallsAt(d, t.dict.Keys, NodePath(t.nodes, n))
  {
    hide UniqueKeys, Shape, InPlace, Summed, Populated, InvertedOnce, Aligned, DepthsOk, Quiescent, NodePath, HasPath,
         Partitioned;
    var p := NodePath(t.nodes, n);
    forall id | id in d
      ensures id in t.callToNode && t.callToNode[id] == n <==> HasPath(d, t.dict.Keys, id, p)
    {
      FoldedIffGrounded(t, d, id);
      if HasPath(d, t.dict.Keys, id, p) {
        PathUnique(d, t.dict.Keys, id, p, PathOf(d, t.dict.Keys, id));
        NodePathInjective(t.nodes, n, t.callToNode[id]);
      }
    }
  }

  lemma ChildCallsAreCallsUnder(t: Tables, d: map<nat, Call>, n: nat)
    requires Settled(t, d) && n in t.nodes
    ensures ChildCalls(d, t.nodes, t.callToNode, n) == CallsUnder(d, t.dict.Keys, NodePath(t.nodes, n))
  {
    hide UniqueKeys, InPlace, Summed, Populated, InvertedOnce, Aligned, DepthsOk, Quiescent, HasPath, Partitioned;
    var p := NodePath(t.nodes, n);
    forall id | id in d
      ensures id in ChildCalls(d, t.nodes, t.callToNode, n) <==>
        Grounded(d, t.dict.Keys, id) && PathOf(d, t.dict.Keys, id).up == p
    {
      FoldedIffGrounded(t, d, id);
      if id in t.callToNode {
        ParentOfRow(t, d, id);
        if NodePath(t.nodes, t.nodes[t.callToNode[id]].parent) == p {
          NodePathInjective(t.nodes, t.nodes[t.callToNode[id]].parent, n);
        }
      }
    }
  }

  lemma ParentOfRow(t: Tables, d: map<nat, Call>, id: nat)
    requires TreeOk(t) && InPlace(d, t.nodes, t.callToNode) && id in t.callToNode
    ensures var n := t.callToNode[id];
            && n in t.nodes && n != ROOT && t.nodes[n].parent in t.nodes
            && NodePath(t.nodes, n).Under? && NodePath(t.nodes, n).up == NodePath(t.nodes, t.nodes[n].parent)
  {
    assert RowFor(d[id], t.nodes, t.callToNode, t.callToNode[id]);
  }

  lemma RowIsTreeRow(t: Tables, d: map<nat, Call>, n: nat)
    requires Settled(t, d) && n in t.nodes
    ensures RowOf(t.nodes[n]) == RowAt(d, t.dict.Keys, NodePath(t.nodes, n))
  {
    hide UniqueKeys, Shape, InPlace, Populated, InvertedOnce, Aligned, DepthsOk, Quiescent, Partitioned, NodeCalls,
         ChildCalls, CallsAt, CallsUnder, NodePath;
    NodeCallsAreCallsAt(t, d, n);
    ChildCallsAreCallsUnder(t, d, n);
  }

  /** A row other than the root has at least one call folded into it. */
  lemma RowHasCall(t: Tables, d: map<nat, Call>, n: nat) returns (id: nat)
    requires Inv(t, d) && n in t.nodes && n != ROOT
    ensures id in t.callToNode && t.callToNode[id] == n
  {
    hide UniqueKeys, Shape, InPlace, InvertedOnce, Aligned, DepthsOk, Partitioned, ChildCalls;
    TotalCounts(NodeCalls(d, t.callToNode, n));
    id :| id in NodeCalls(d, t.callToNode, n);
  }

  lemma RowHasPath(t: Tables, d: map<nat, Call>, n: nat)
    requires Settled(t, d) && n in t.nodes
    ensures NodePath(t.nodes, n) in Paths(d, t.dict.Keys)
  {
    hide UniqueKeys, Shape, InPlace, Summed, Populated, InvertedOnce, Aligned, DepthsOk, Quiescent, Partitioned;
    if n != ROOT {
      var id := RowHasCall(t, d, n);
      FoldedIffGrounded(t, d, id);
      assert id in GroundedIds(d, t.dict.Keys);
    }
  }

  lemma PathHasRow(t: Tables, d: map<nat, Call>, p: Path) returns (n: nat)
    requires Settled(t, d) && p in Paths(d, t.dict.Keys)
    ensures n in t.nodes && NodePath(t.nodes, n) == p
  {
    hide UniqueKeys, InPlace, Summed, Populated, InvertedOnce, Aligned, DepthsOk, Quiescent, Partitioned;
    if p == Top {
      n := ROOT;
    } else {
      var id :| id in GroundedIds(d, t.dict.Keys) && p == PathOf(d, t.dict.Keys, id);
      FoldedIffGrounded(t, d, id);
      n := t.callToNode[id];
    }
  }

  /** The node table is, row for row, the calling-context tree of the delivered calls. */
  lemma SettledIsTree(t: Tables, d: map<nat, Call>)
    requires Settled(t, d)
    ensures ByPath(t) == Tree(d, t.dict.Keys)
  {
    hide UniqueKeys, Shape, InPlace, Summed, Populated, InvertedOnce, Aligned, DepthsOk, Quiescent, Partitioned,
         NodePath, Paths, RowAt, RowOf;
    forall n | n in t.nodes
      ensures NodePath(t.nodes, n) in Paths(d, t.dict.Keys)
      ensures RowOf(t.nodes[n]) == RowAt(d, t.dict.Keys, NodePath(t.nodes, n))
    {
      RowHasPath(t, d, n);
      RowIsTreeRow(t, d, n);
    }
    forall p | p in Paths(d, t.dict.Keys)
      ensures p in ByPath(t)
    {
      var n := PathHasRow(t, d, p);
    }
  }

  // ---- inverted-time rows ----

  datatype Inversion = Inversion(path: Path, callId: nat, tIn: int, tOut: int)

  /** The inverted-time rows, each with its node replaced by the context it stands for. */
  ghost function Inversions(t: Tables): set<Inversion>
    requires Shape(t.nodes)
  {
    set a | a in t.anomalies && a.InvertedTime? && a.nodeId in t.nodes ::
      Inversion(NodePath(t.nodes, a.nodeId), a.callId, a.tIn, a.tOut)
  }

  ghost function InvertedCalls(d: map<nat, Call>, known: set<nat>): set<Inversion> {
    set id | id in d && Grounded(d, known, id) && Inverted(d[id]) ::
      Inversion(PathOf(d, known, id), id, d[id].tIn, d[id].tOut)
  }

  /** The inverted-time rows record exactly the folded calls whose clocks ran backwards, once each. */
  lemma SettledInversions(t: Tables, d: map<nat, Call>)
    requires Settled(t, d)
    ensures Inversions(t) == InvertedCalls(d, t.dict.Keys)
    ensures forall a :: a in t.anomalies && a.InvertedTime? ==> multiset(t.anomalies)[a] == 1
  {
    hide UniqueKeys, Shape, InPlace, Summed, Populated, Aligned, DepthsOk, Quiescent, Partitioned, NodePath;
    forall a | a in t.anomalies && a.InvertedTime?
      ensures multiset(t.anomalies)[a] == 1 && InvertedRow(d, t.callToNode, a)
    {
      assert a in multiset(t.anomalies);
    }
    forall v | v in Inversions(t)
      ensures v in InvertedCalls(d, t.dict.Keys)
    {
      FoldedIffGrounded(t, d, v.callId);
    }
    forall v | v in InvertedCalls(d, t.dict.Keys)
      ensures v in Inversions(t)
    {
      FoldedIffGrounded(t, d, v.callId);
      var a := InvertedTime(t.callToNode[v.callId], v.callId, v.tIn, v.tOut);
      assert InvertedRow(d, t.callToNode, a);
      assert a in multiset(t.anomalies);
    }
  }

  // ---- order independence ----

  /** Two settled traces with the same delivered calls and the same known functions agree on
      everything but row ids: contexts and their counters, folded and parked calls, inversions. */
  lemma SameDeliveriesSameTrace(t1: Tables, t2: Tables, d: map<nat, Call>)
    requires Settled(t1, d) && Settled(t2, d) && t1.dict.Keys == t2.dict.Keys
    ensures ByPath(t1) == ByPath(t2)
    ensures t1.callToNode.Keys == t2.callToNode.Keys
    ensures t1.pending == t2.pending
    ensures Inversions(t1) == Inversions(t2)
  {
    hide UniqueKeys, Shape, InPlace, Summed, Populated, InvertedOnce, Aligned, DepthsOk, Quiescent, Partitioned,
         NodePath, ByPath, Tree, Inversions, InvertedCalls, GroundedIds, Parked;
    SettledIsTree(t1, d);
    SettledIsTree(t2, d);
    SettledIsLeastFixpoint(t1, d);
    SettledIsLeastFixpoint(t2, d);
    SettledInversions(t1, d);
    SettledInversions(t2, d);
    assert t1.pending.Keys == t2.pending.Keys;
  }

  // ---- any order of folds ends in the same place ----

  /** One resolvable parked call is folded, with the depth a rescan would give it. */
  ghost predicate FoldStep(t: Tables, t': Tables) {
    exists pid, c, nid ::
      && CanFold(t, pid, c, nid) && ParentRow(t, c.parent, pid)
      && c.callId in t.pending && ToRow(c) == t.pending[c.callId]
      && pid in t.nodes && c.depth == t.nodes[pid].depth + 1
      && t' == Resolve(t, pid, c, nid)
  }

  /** A run of such folds, in any order at all. */
  ghost predicate FoldRun(run: seq<Tables>) {
    |run| > 0 && forall i :: 0 < i < |run| ==> FoldStep(run[i - 1], run[i])
  }

  lemma StepKeepsInv(t: Tables, t': Tables, d: map<nat, Call>)
    requires Inv(t, d) && FoldStep(t, t')
    ensures Inv(t', d) && t'.dict == t.dict && |t'.pending| == |t.pending| - 1
  {
    hide Inv, CanFold, ParentRow, Aligned;
    var pid, c, nid :|
      && CanFold(t, pid, c, nid) && ParentRow(t, c.parent, pid)
      && c.callId in t.pending && ToRow(c) == t.pending[c.callId]
      && pid in t.nodes && c.depth == t.nodes[pid].depth + 1
      && t' == Resolve(t, pid, c, nid);
    if Aligned(d, t.callToNode[c.callId := 0]) {
      ParkedDepth(t, d, c.callId, pid);
    }
    assert DepthPremise(t, d, c);
    ResolveKeepsInv(t, d, pid, c, nid);
    assert t'.pending.Keys == t.pending.Keys - {c.callId};
  }

  lemma {:induction false} RunKeepsInv(run: seq<Tables>, d: map<nat, Call>)
    requires FoldRun(run) && Inv(run[0], d)
    ensures Inv(run[|run| - 1], d) && run[|run| - 1].dict == run[0].dict
    ensures |run[|run| - 1].pending| == |run[0].pending| - (|run| - 1)
  {
    hide Inv, FoldStep;
    if |run| > 1 {
      var before := run[..|run| - 1];
      RunKeepsInv(before, d);
      StepKeepsInv(run[|run| - 2], run[|run| - 1], d);
    }
  }

  /** Rescanning the parked calls in whatever order until nothing resolves takes at most one fold
      per parked call and always ends with the same trace; the worklist drain is one such order. */
  lemma AnyFoldOrderAgrees(run: seq<Tables>, t: Tables, d: map<nat, Call>)
    requires FoldRun(run) && Inv(run[0], d) && Quiescent(run[|run| - 1])
    requires Settled(t, d) && t.dict == run[0].dict
    ensures |run| <= |run[0].pending| + 1
    ensures Settled(run[|run| - 1], d)
    ensures ByPath(run[|run| - 1]) == ByPath(t) && run[|run| - 1].pending == t.pending
    ensures run[|run| - 1].callToNode.Keys == t.callToNode.Keys && Inversions(run[|run| - 1]) == Inversions(t)
  {
    hide UniqueKeys, Shape, InPlace, Summed, Populated, InvertedOnce, Aligned, DepthsOk, Quiescent, Partitioned,
         FoldStep, ByPath, Inversions;
    RunKeepsInv(run, d);
    SameDeliveriesSameTrace(run[|run| - 1], t, d);
  }
}
