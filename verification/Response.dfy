/** What the tree endpoint shows of a trace, in terms of the batches the collector recorded for it. */
module Response {
  import opened Wire
  import opened CallTree
  import opened TraceTables
  import opened Refinement
  import opened Aggregate
  import opened Deliveries
  import opened Names
  import opened Figures
  import opened TraceStorage
  import opened Finalize
  import opened Decoder
  import opened TreeWindow

  /** Calls whose context is `path` and whose clock ran backwards. */
  ghost function BackwardsAt(d: map<nat, Call>, known: set<nat>, path: Path): set<nat> {
    set id | id in d && HasPath(d, known, id, path) && d[id].tOut < d[id].tIn
  }

  /** The item shows the counters of the calls `here`, the self time they leave to the calls `below`, and how
      many of them had inverted clocks. */
  ghost predicate ShowsCalls(item: Item, here: map<nat, Call>, below: map<nat, Call>, backwards: set<nat>) {
    var own := SumOf(here, Elapsed) - SumOf(below, Elapsed);
    && Shows(item.totals, here)
    && item.selfWall == (if own > 0 then own else 0)
    && item.anomalyCount == |backwards|
    && (item.hasChildren <==> below != map[])
  }

  /** The item carries the first acceptable entry offered for function `fnId`. */
  ghost predicate ShowsEntry(item: Item, offered: seq<DictEntry>, fnId: nat) {
    exists i: nat :: FirstFor(offered, fnId, i) && item.entry == offered[i]
  }

  lemma BackwardsAreInverted(t: Tables, d: map<nat, Call>, n: nat)
    requires Settled(t, d) && n in t.nodes
    ensures InvertedAt(t, d, n) == BackwardsAt(d, t.dict.Keys, NodePath(t.nodes, n))
  {
    hide UniqueKeys, Shape, InPlace, Summed, Populated, InvertedOnce, Aligned, DepthsOk, Quiescent, NodePath, HasPath,
         Partitioned;
    NodeCallsAreCallsAt(t, d, n);
    forall id | id in d
      ensures id in t.callToNode && t.callToNode[id] == n <==> HasPath(d, t.dict.Keys, id, NodePath(t.nodes, n))
    {
      assert id in NodeCalls(d, t.callToNode, n) <==> id in CallsAt(d, t.dict.Keys, NodePath(t.nodes, n));
    }
  }

  lemma SettledItem(t: Tables, d: map<nat, Call>, p: Placed, childrenLoaded: bool)
    requires Settled(t, d) && p.nodeId in t.nodes
    ensures t.nodes[p.nodeId].fnId in t.dict
    ensures var path, known := NodePath(t.nodes, p.nodeId), t.dict.Keys;
            ShowsCalls(ToItem(t, p, childrenLoaded), CallsAt(d, known, path), CallsUnder(d, known, path),
                       BackwardsAt(d, known, path))
  {
    hide Shape, UniqueKeys, InPlace, Partitioned, Populated, InvertedOnce, Aligned, DepthsOk, Quiescent, NodePath,
         Total, NodeCalls, ChildCalls, CallsAt, CallsUnder, HasChildren, AnomalyCount, InvertedAt, BackwardsAt;
    RowFigures(t, d, p.nodeId);
    NodeCallsAreCallsAt(t, d, p.nodeId);
    ChildCallsAreCallsUnder(t, d, p.nodeId);
    ItemFigures(t, d, p, childrenLoaded);
    ItemPlace(t, d, p, childrenLoaded);
    BackwardsAreInverted(t, d, p.nodeId);
  }

  /** The tables of a trace that lost no calls, after its recorded batches `h`. */
  ghost predicate Holds(t: Tables, h: seq<Batch>) {
    Recorded(t, h) && t.dict == AddEntries(map[], Offered(h))
  }

  lemma CleanRunHolds(views: seq<View>, turns: seq<Turn>, k: TraceKey)
    requires CleanRun(views, turns, k) && History(turns, k) != []
    ensures |views| == |turns| + 1 && Holds(views[|turns|].file.tables, History(turns, k))
  {
    hide History, AllFns, DeliverAll, LosesNothing, Turned, Settled, Offered, AddEntries;
    Followed(views, turns, k);
    UnseenIsOk(views[0]);
    RunFollows(views, turns, k);
  }

  lemma NodeEntry(t: Tables, h: seq<Batch>, n: nat)
    requires TreeOk(t) && n in t.nodes && t.dict == AddEntries(map[], Offered(h))
    ensures exists i: nat :: FirstFor(Offered(h), t.nodes[n].fnId, i) && t.dict[t.nodes[n].fnId] == Offered(h)[i]
    ensures t.nodes[n].fnId == if NodePath(t.nodes, n).Top? then 0 else NodePath(t.nodes, n).fnId
  {
    hide AddEntries, Offered, FirstFor, UniqueKeys;
    AddEntriesAt(map[], Offered(h), t.nodes[n].fnId);
  }

  /** After any run that loses no calls of a trace, whatever else it interleaves, each item of its tree shows the
      name its batches gave the function first, and figures summed over exactly the delivered calls with that
      context. */
  lemma ItemsTell(views: seq<View>, turns: seq<Turn>, k: TraceKey, p: Placed, childrenLoaded: bool)
    requires CleanRun(views, turns, k) && History(turns, k) != []
    requires |views| == |turns| + 1 && p.nodeId in views[|turns|].file.tables.nodes
    ensures var t := views[|turns|].file.tables;
            TreeOk(t) && t.nodes[p.nodeId].fnId in t.dict && t.dict.Keys == AllFns(History(turns, k))
    ensures var t, h, known := views[|turns|].file.tables, History(turns, k), AllFns(History(turns, k));
            var d, path, item := DeliverAll(map[], h), NodePath(t.nodes, p.nodeId), ToItem(t, p, childrenLoaded);
            && ShowsEntry(item, Offered(h), if path.Top? then 0 else path.fnId)
            && ShowsCalls(item, CallsAt(d, known, path), CallsUnder(d, known, path), BackwardsAt(d, known, path))
  {
    hide History, AllFns, DeliverAll, Settled, ShowsCalls, Offered, HasChildren, AnomalyCount, CallsAt, CallsUnder,
         BackwardsAt, AddEntries, CleanRun, TreeOk, NodePath, FirstFor;
    CleanRunHolds(views, turns, k);
    var t, d := views[|turns|].file.tables, DeliverAll(map[], History(turns, k));
    SettledIsOk(t, d);
    SettledItem(t, d, p, childrenLoaded);
    NodeEntry(t, History(turns, k), p.nodeId);
  }

  lemma SettledIsOk(t: Tables, d: map<nat, Call>)
    requires Settled(t, d)
    ensures TreeOk(t)
  {
    hide Shape, UniqueKeys, InPlace, Partitioned, Summed, Populated, InvertedOnce, Aligned, DepthsOk, Quiescent;
  }
}
