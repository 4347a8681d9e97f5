/** The depth column: whether it depends on arrival order, and what it says when it does not. */
module Depths {
  import opened Wire
  import opened TraceTables
  import opened CallTree
  import opened Refinement

  // ---- one fold ----

  /** Folding a call on arrival trusts its wire depth; folding it out of the parked rows recomputes
      it. The two leave the same tables exactly when the row existed already or the wire depth is
      one more than the parent row's. A script body at depth 0 below the root's 0 is such a miss. */
  lemma ArrivalMattersIff(t: Tables, pid: nat, c: Call, nid: nat)
    requires CanFold(t, pid, c, nid) && c.callId !in t.pending && c.callId !in t.callToNode
    ensures pid in t.nodes
    ensures Fold(t, pid, c, nid) == Resolve(Park(t, c), pid, FromRow(ToRow(c), t.nodes[pid].depth + 1), nid)
       <==> nid in t.nodes || c.depth == t.nodes[pid].depth + 1
  {
    hide TreeOk, BucketOf;
    var c' := FromRow(ToRow(c), t.nodes[pid].depth + 1);
    assert Delta(c') == Delta(c) && Wall(c') == Wall(c);
    assert Park(t, c).pending - {c.callId} == t.pending;
    CanFoldFacts(t, pid, c, nid);
    if nid in t.nodes || c.depth == t.nodes[pid].depth + 1 {
      assert Upsert(t.nodes, pid, c, nid) == Upsert(t.nodes, pid, c', nid);
    } else {
      assert Fold(t, pid, c, nid).nodes[nid].depth == c.depth;
      assert Resolve(Park(t, c), pid, c', nid).nodes[nid].depth == c'.depth;
    }
  }

  // ---- one state ----

  /** In every state on the way, if the folded calls' wire depths fit together, each row's depth is the
      wire depth of every call folded into it. */
  lemma DepthIsWireDepth(t: Tables, d: map<nat, Call>, id: nat)
    requires Inv(t, d) && Aligned(d, t.callToNode) && id in t.callToNode
    ensures id in d && t.callToNode[id] in t.nodes && t.nodes[t.callToNode[id]].depth == d[id].depth
  {
    hide UniqueKeys, Partitioned, Summed, Populated, InvertedOnce, Aligned, Shape;
    FoldedDepthIs(d, t.nodes, t.callToNode, id);
  }

  /** The convention the reordering tests rely on: top-level calls at depth 1, every other delivered
      call one deeper than its parent. */
  ghost predicate WireDepths(d: map<nat, Call>) {
    forall id :: id in d ==>
      d[id].depth == if d[id].parent == 0 then 1
        else if d[id].parent in d then d[d[id].parent].depth + 1 else d[id].depth
  }

  lemma WireDepthsAlign(d: map<nat, Call>, ctn: map<nat, nat>)
    requires WireDepths(d)
    ensures Aligned(d, ctn)
  {
  }

  /** Under that convention the depth of every row, in every state on the way, is the length of the row's
      calling context. */
  lemma {:induction false} DepthIsPathLength(t: Tables, d: map<nat, Call>, n: nat)
    requires Inv(t, d) && WireDepths(d) && n in t.nodes
    ensures t.nodes[n].depth == NodePath(t.nodes, n).Length()
    decreases n
  {
    hide Partitioned, Summed, Populated, InvertedOnce, UniqueKeys, Aligned, DepthsOk;
    if n != ROOT {
      var id := BucketHasCall(d, t.nodes, t.callToNode, n);
      WireDepthsAlign(d, t.callToNode);
      DepthIsWireDepth(t, d, id);
      assert RowFor(d[id], t.nodes, t.callToNode, n);
      if d[id].parent != 0 {
        DepthIsWireDepth(t, d, d[id].parent);
      }
      DepthIsPathLength(t, d, t.nodes[n].parent);
    }
  }

  // ---- all orders of one set of deliveries ----

  /** The depth column with row ids replaced by the contexts they stand for. */
  ghost function Column(t: Tables): map<Path, nat>
    requires TreeOk(t)
  {
    DistinctPaths(t.nodes);
    map n | n in t.nodes :: NodePath(t.nodes, n) := t.nodes[n].depth
  }

  ghost function Grounding(d: map<nat, Call>, known: set<nat>): map<nat, nat> {
    map id | id in GroundedIds(d, known) :: 0
  }

  /** The wire depths of the calls that have a context fit together. */
  ghost predicate Fits(d: map<nat, Call>, known: set<nat>) {
    Aligned(d, Grounding(d, known))
  }

  lemma AlignedByKeys(d: map<nat, Call>, ctn: map<nat, nat>, ctn': map<nat, nat>)
    requires ctn.Keys == ctn'.Keys && Aligned(d, ctn)
    ensures Aligned(d, ctn')
  {
    hide AlignedCall, BothTopOfRoot;
    assert forall id :: id in ctn' ==> id in ctn;
  }

  /** In a settled trace whose calls' wire depths fit, the row of a context has the wire depth of each call there. */
  lemma SettledColumn(t: Tables, d: map<nat, Call>, n: nat)
    requires Settled(t, d) && Fits(d, t.dict.Keys) && n in t.nodes
    ensures n == ROOT ==> t.nodes[n].depth == 0
    ensures forall id :: HasPath(d, t.dict.Keys, id, NodePath(t.nodes, n)) ==>
      id in d && t.nodes[n].depth == d[id].depth
    ensures n != ROOT ==> exists id :: HasPath(d, t.dict.Keys, id, NodePath(t.nodes, n))
  {
    hide Shape, UniqueKeys, InPlace, Partitioned, Summed, Populated, InvertedOnce, Aligned, DepthsOk, Quiescent,
         NodePath, HasPath, Grounded;
    SettledIsLeastFixpoint(t, d);
    AlignedByKeys(d, Grounding(d, t.dict.Keys), t.callToNode);
    forall id | HasPath(d, t.dict.Keys, id, NodePath(t.nodes, n))
      ensures id in d && t.nodes[n].depth == d[id].depth
    {
      GroundedIsFolded(t, d, id, NodePath(t.nodes, n));
      DepthIsWireDepth(t, d, id);
      FoldedHasPath(t, d, id);
      PathUnique(d, t.dict.Keys, id, NodePath(t.nodes, n), NodePath(t.nodes, t.callToNode[id]));
      NodePathInjective(t.nodes, n, t.callToNode[id]);
    }
    if n != ROOT {
      var id := BucketHasCall(d, t.nodes, t.callToNode, n);
      FoldedHasPath(t, d, id);
    }
  }

  /** If the wire depths of the grounded calls fit together, all delivery orders agree on the column. */
  lemma FittingOrdersAgree(t1: Tables, t2: Tables, d: map<nat, Call>)
    requires Settled(t1, d) && Settled(t2, d) && t1.dict.Keys == t2.dict.Keys && Fits(d, t1.dict.Keys)
    ensures Column(t1) == Column(t2)
  {
    hide Shape, UniqueKeys, InPlace, Partitioned, Summed, Populated, InvertedOnce, Aligned, DepthsOk, Quiescent,
         NodePath, HasPath, Fits, Tree, Column, ByPath;
    SettledIsTree(t1, d);
    SettledIsTree(t2, d);
    ColumnPaths(t1);
    ColumnPaths(t2);
    forall p | p in Column(t1)
      ensures p in Column(t2) && Column(t1)[p] == Column(t2)[p]
    {
      SameDepthAt(t1, t2, d, p);
    }
  }

  lemma ColumnAt(t: Tables, n: nat)
    requires TreeOk(t) && n in t.nodes
    ensures NodePath(t.nodes, n) in Column(t) && Column(t)[NodePath(t.nodes, n)] == t.nodes[n].depth
  {
    hide Shape, UniqueKeys, NodePath;
    DistinctPaths(t.nodes);
  }

  lemma NodeOf(t: Tables, p: Path) returns (n: nat)
    requires TreeOk(t) && p in Column(t)
    ensures n in t.nodes && NodePath(t.nodes, n) == p
  {
    hide Shape, UniqueKeys, NodePath;
    n :| n in t.nodes && NodePath(t.nodes, n) == p;
  }

  lemma ColumnPaths(t: Tables)
    requires TreeOk(t)
    ensures Column(t).Keys == ByPath(t).Keys
  {
    hide Shape, UniqueKeys, NodePath;
  }

  lemma SameDepthAt(t1: Tables, t2: Tables, d: map<nat, Call>, p: Path)
    requires Settled(t1, d) && Settled(t2, d) && t1.dict.Keys == t2.dict.Keys && Fits(d, t1.dict.Keys)
    requires p in Column(t1) && p in Column(t2)
    ensures Column(t1)[p] == Column(t2)[p]
  {
    hide Shape, UniqueKeys, InPlace, Partitioned, Summed, Populated, InvertedOnce, Aligned, DepthsOk, Quiescent,
         NodePath, HasPath, Fits, Column;
    var n1 := NodeOf(t1, p);
    var n2 := NodeOf(t2, p);
    ColumnAt(t1, n1);
    ColumnAt(t2, n2);
    SettledColumn(t1, d, n1);
    SettledColumn(t2, d, n2);
    TopIsRoot(t1.nodes, n1);
    TopIsRoot(t2.nodes, n2);
  }

  lemma TopIsRoot(nodes: map<nat, Node>, n: nat)
    requires Shape(nodes) && n in nodes
    ensures n == ROOT <==> NodePath(nodes, n) == Top
  {
  }
}
