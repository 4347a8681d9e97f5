/** Conservation of the counters over the node tree, and when self time is non-negative. */
module SelfTime {
  import opened Wire
  import opened CallTree
  import opened TraceTables

  ghost function Any(s: set<nat>): (n: nat)
    requires s != {}
    ensures n in s
  {
    var n :| n in s; n
  }

  /** Column sums over a set of rows. */
  ghost function RowTotals(nodes: map<nat, Node>, s: set<nat>): Totals
    requires s <= nodes.Keys
    decreases |s|
  {
    if s == {} then ZERO else nodes[Any(s)].totals.Plus(RowTotals(nodes, s - {Any(s)}))
  }

  lemma {:induction false} RowTotalsRemove(nodes: map<nat, Node>, s: set<nat>, n: nat)
    requires s <= nodes.Keys && n in s
    ensures RowTotals(nodes, s) == nodes[n].totals.Plus(RowTotals(nodes, s - {n}))
    decreases |s|
  {
    var first := Any(s);
    if first != n {
      RowTotalsRemove(nodes, s - {first}, n);
      RowTotalsRemove(nodes, s - {n}, first);
      assert s - {first} - {n} == s - {n} - {first};
      PlusSwaps(nodes[first].totals, nodes[n].totals, RowTotals(nodes, s - {n} - {first}));
    }
  }

  ghost function FoldedInto(d: map<nat, Call>, ctn: map<nat, nat>, s: set<nat>): map<nat, Call> {
    map id | id in ctn && id in d && ctn[id] in s :: d[id]
  }

  ghost function ChildRows(nodes: map<nat, Node>, n: nat): set<nat> {
    set m | m in nodes && nodes[m].parent == n
  }

  lemma FoldedIntoSplits(d: map<nat, Call>, ctn: map<nat, nat>, s: set<nat>, n: nat)
    requires n in s
    ensures Splits(FoldedInto(d, ctn, s), NodeCalls(d, ctn, n), FoldedInto(d, ctn, s - {n}))
  {
  }

  /** Summing rows is summing the calls folded into them, in every column. */
  lemma {:induction false} RowsConserve(d: map<nat, Call>, nodes: map<nat, Node>, ctn: map<nat, nat>, s: set<nat>)
    requires Summed(d, nodes, ctn) && s <= nodes.Keys
    ensures RowTotals(nodes, s) == Total(FoldedInto(d, ctn, s))
    decreases |s|
  {
    hide Splits, NodeCalls, ChildCalls;
    if s == {} {
      assert FoldedInto(d, ctn, s) == map[];
    } else {
      var n := Any(s);
      RowsConserve(d, nodes, ctn, s - {n});
      FoldedIntoSplits(d, ctn, s, n);
      TotalSplit(FoldedInto(d, ctn, s), NodeCalls(d, ctn, n), FoldedInto(d, ctn, s - {n}));
    }
  }

  /** A row's children column is the sum of its child rows' totals, the root's included. */
  lemma ChildrenColumn(t: Tables, d: map<nat, Call>, n: nat)
    requires Inv(t, d) && n in t.nodes
    ensures t.nodes[n].childrenWall == RowTotals(t.nodes, ChildRows(t.nodes, n)).wall
  {
    hide Shape, UniqueKeys, InPlace, Partitioned, Populated, InvertedOnce, Aligned, DepthsOk, Total, RowTotals;
    RowsConserve(d, t.nodes, t.callToNode, ChildRows(t.nodes, n));
    assert FoldedInto(d, t.callToNode, ChildRows(t.nodes, n)) == ChildCalls(d, t.nodes, t.callToNode, n);
  }

  /** The non-root rows together account for every folded call exactly once, in every column. */
  lemma TreeConserves(t: Tables, d: map<nat, Call>)
    requires Inv(t, d)
    ensures RowTotals(t.nodes, t.nodes.Keys - {ROOT}) == Total(FoldedOnly(t, d))
    ensures RowTotals(t.nodes, t.nodes.Keys - {ROOT}).calls == |t.callToNode|
  {
    hide Shape, UniqueKeys, Summed, Populated, InvertedOnce, Aligned, DepthsOk, Total, RowTotals;
    RowsConserve(d, t.nodes, t.callToNode, t.nodes.Keys - {ROOT});
    forall id | id in t.callToNode
      ensures t.callToNode[id] in t.nodes.Keys - {ROOT}
    {
      assert RowFor(d[id], t.nodes, t.callToNode, t.callToNode[id]);
    }
    assert FoldedInto(d, t.callToNode, t.nodes.Keys - {ROOT}) == FoldedOnly(t, d);
    TotalCounts(FoldedOnly(t, d));
    assert FoldedOnly(t, d).Keys == t.callToNode.Keys;
    assert |FoldedOnly(t, d)| == |FoldedOnly(t, d).Keys| == |t.callToNode.Keys| == |t.callToNode|;
  }

  // ---- self time ----

  /** Delivered direct children of call `id`. */
  ghost function Kids(d: map<nat, Call>, id: nat): map<nat, Call> {
    map k | k in d && d[k].parent == id :: d[k]
  }

  /** Every call lasts at least as long as its direct children together. */
  ghost predicate Nested(d: map<nat, Call>) {
    forall id :: id in d ==> Wall(d[id]) >= Total(Kids(d, id)).wall
  }

  /** Folded calls whose parent call is in `s`. */
  ghost function KidsOf(d: map<nat, Call>, ctn: map<nat, nat>, s: set<nat>): map<nat, Call> {
    map k | k in ctn && k in d && d[k].parent in s :: d[k]
  }

  lemma SubsetWall(m: map<nat, Call>, a: map<nat, Call>)
    requires a.Keys <= m.Keys && forall id :: id in a ==> m[id] == a[id]
    ensures Total(a).wall <= Total(m).wall
  {
    var rest := m - a.Keys;
    assert Splits(m, a, rest);
    TotalSplit(m, a, rest);
    TotalCounts(rest);
  }

  lemma KidsOfSplits(d: map<nat, Call>, ctn: map<nat, nat>, m: map<nat, Call>, id: nat)
    requires id in m
    ensures Splits(KidsOf(d, ctn, m.Keys), KidsOf(d, ctn, {id}), KidsOf(d, ctn, (m - {id}).Keys))
  {
  }

  lemma {:induction false} KidsWithinParents(d: map<nat, Call>, ctn: map<nat, nat>, m: map<nat, Call>)
    requires Nested(d) && forall id :: id in m ==> id in d && m[id] == d[id]
    ensures Total(KidsOf(d, ctn, m.Keys)).wall <= Total(m).wall
    decreases |m|
  {
    hide Splits, Kids, KidsOf;
    if m == map[] {
      assert KidsOf(d, ctn, m.Keys) == map[] by { NoKids(d, ctn); }
    } else {
      var id := Some(m);
      KidsWithinParents(d, ctn, m - {id});
      KidsOfSplits(d, ctn, m, id);
      TotalSplit(KidsOf(d, ctn, m.Keys), KidsOf(d, ctn, {id}), KidsOf(d, ctn, (m - {id}).Keys));
      KidsAreKids(d, ctn, id);
      SubsetWall(Kids(d, id), KidsOf(d, ctn, {id}));
    }
  }

  lemma NoKids(d: map<nat, Call>, ctn: map<nat, nat>)
    ensures KidsOf(d, ctn, {}) == map[]
  {
  }

  lemma KidsAreKids(d: map<nat, Call>, ctn: map<nat, nat>, id: nat)
    ensures KidsOf(d, ctn, {id}).Keys <= Kids(d, id).Keys
    ensures forall k :: k in KidsOf(d, ctn, {id}) ==> Kids(d, id)[k] == KidsOf(d, ctn, {id})[k]
  {
  }

  /** The calls below a row are the children of the calls in it. */
  lemma ChildCallsAreKids(t: Tables, d: map<nat, Call>, n: nat)
    requires Shape(t.nodes) && InPlace(d, t.nodes, t.callToNode) && n in t.nodes && n != ROOT
    requires forall id :: id in d ==> id != 0
    ensures ChildCalls(d, t.nodes, t.callToNode, n) == KidsOf(d, t.callToNode, NodeCalls(d, t.callToNode, n).Keys)
  {
    hide Shape;
    forall k | k in t.callToNode
      ensures k in ChildCalls(d, t.nodes, t.callToNode, n) <==>
        k in KidsOf(d, t.callToNode, NodeCalls(d, t.callToNode, n).Keys)
    {
      assert RowFor(d[k], t.nodes, t.callToNode, t.callToNode[k]);
    }
  }

  /** In every state on the way, a row other than the root has a non-negative self time as soon as
      every call lasts at least as long as its children; the API's clamp then changes nothing. */
  lemma SelfTimeNonNegative(t: Tables, d: map<nat, Call>, n: nat)
    requires Inv(t, d) && Nested(d) && n in t.nodes && n != ROOT
    ensures t.nodes[n].totals.wall >= t.nodes[n].childrenWall
  {
    hide Shape, UniqueKeys, InPlace, Populated, InvertedOnce, Aligned, DepthsOk, Nested, NodeCalls, ChildCalls, Total,
         KidsOf;
    ChildCallsAreKids(t, d, n);
    NodeCallsAreDelivered(d, t.callToNode, n);
    KidsWithinParents(d, t.callToNode, NodeCalls(d, t.callToNode, n));
  }

  lemma NodeCallsAreDelivered(d: map<nat, Call>, ctn: map<nat, nat>, n: nat)
    ensures forall id :: id in NodeCalls(d, ctn, n) ==> id in d && NodeCalls(d, ctn, n)[id] == d[id]
  {
  }

  /** The root takes no calls itself: its self time before clamping is minus the walls of the
      top-level rows, so it is non-negative only when all of those are zero. */
  lemma RootSelfTime(t: Tables, d: map<nat, Call>)
    requires Inv(t, d)
    ensures t.nodes[ROOT].totals == ZERO
    ensures t.nodes[ROOT].totals.wall - t.nodes[ROOT].childrenWall >= 0 <==>
            forall n :: n in t.nodes && t.nodes[n].parent == ROOT ==> t.nodes[n].totals.wall == 0
  {
    hide UniqueKeys, Partitioned, Populated, InvertedOnce, Aligned, DepthsOk, ChildCalls;
    forall id | id in t.callToNode
      ensures t.callToNode[id] != ROOT
    {
      assert RowFor(d[id], t.nodes, t.callToNode, t.callToNode[id]);
    }
    assert NodeCalls(d, t.callToNode, ROOT) == map[];
    ChildrenColumn(t, d, ROOT);
    WallsNonNegative(t, d);
    ZeroSum(t.nodes, ChildRows(t.nodes, ROOT));
  }

  lemma WallsNonNegative(t: Tables, d: map<nat, Call>)
    requires Inv(t, d)
    ensures forall n :: n in t.nodes ==> t.nodes[n].totals.wall >= 0
  {
    hide Shape, UniqueKeys, InPlace, Partitioned, Populated, InvertedOnce, Aligned, DepthsOk, NodeCalls, ChildCalls,
         Total;
    forall n | n in t.nodes
      ensures t.nodes[n].totals.wall >= 0
    {
      TotalCounts(NodeCalls(d, t.callToNode, n));
    }
  }

  lemma {:induction false} ZeroSum(nodes: map<nat, Node>, s: set<nat>)
    requires s <= nodes.Keys && forall n :: n in s ==> nodes[n].totals.wall >= 0
    ensures RowTotals(nodes, s).wall >= 0
    ensures RowTotals(nodes, s).wall == 0 <==> forall n :: n in s ==> nodes[n].totals.wall == 0
    decreases |s|
  {
    if s != {} {
      ZeroSum(nodes, s - {Any(s)});
    }
  }
}
