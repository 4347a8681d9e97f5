/** The depth-limited tree endpoint (`api/internal/tree.php`) over a per-trace database. */
module TreeWindow {
  import opened Wire
  import opened CallTree
  import opened TraceTables
  import opened Refinement
  import opened SelfTime
  import opened Depths

  // ---- the recursive query ----

  /** One row of the CTE: a node id and its `depth_in_tree`. */
  datatype Placed = Placed(nodeId: nat, level: nat)

  /** Some order in which the engine reads the node rows, each exactly once. */
  ghost predicate Scan(nodes: map<nat, Node>, scan: seq<nat>) {
    forall n :: multiset(scan)[n] == if n in nodes then 1 else 0
  }

  /** `n.parent_node_id = t`; a NULL parent equals nothing. */
  predicate ChildOf(nodes: map<nat, Node>, n: nat, t: nat) {
    n in nodes && nodes[n].parent != NULL && nodes[n].parent == t
  }

  function Roots(nodes: map<nat, Node>, scan: seq<nat>): seq<nat> {
    if scan == [] then []
    else (if scan[0] in nodes && nodes[scan[0]].parent == NULL then [scan[0]] else []) + Roots(nodes, scan[1..])
  }

  function JoinOne(nodes: map<nat, Node>, scan: seq<nat>, t: nat): seq<nat> {
    if scan == [] then [] else (if ChildOf(nodes, scan[0], t) then [scan[0]] else []) + JoinOne(nodes, scan[1..], t)
  }

  function JoinLevel(nodes: map<nat, Node>, scan: seq<nat>, level: seq<nat>): seq<nat> {
    if level == [] then [] else JoinOne(nodes, scan, level[0]) + JoinLevel(nodes, scan, level[1..])
  }

  function AtLevel(level: seq<nat>, k: nat): seq<Placed> {
    if level == [] then [] else [Placed(level[0], k)] + AtLevel(level[1..], k)
  }

  /** UNION ALL, first-in first-out: the queue holds one level after the other. */
  function Levels(nodes: map<nat, Node>, scan: seq<nat>, level: seq<nat>, k: nat, maxDepth: nat): seq<Placed>
    requires k <= maxDepth
    decreases maxDepth - k
  {
    AtLevel(level, k) + if k < maxDepth then Levels(nodes, scan, JoinLevel(nodes, scan, level), k + 1, maxDepth) else []
  }

  /** The inner join with `dict`. */
  function JoinDict(t: Tables, rows: seq<Placed>): seq<Placed> {
    if rows == [] then []
    else
      (if rows[0].nodeId in t.nodes && t.nodes[rows[0].nodeId].fnId in t.dict then [rows[0]] else [])
      + JoinDict(t, rows[1..])
  }

  function Query(t: Tables, scan: seq<nat>, maxDepth: nat): seq<Placed> {
    JoinDict(t, Levels(t.nodes, scan, Roots(t.nodes, scan), 0, maxDepth))
  }

  // ---- ORDER BY ----

  datatype Sort = TotalWallDesc | SelfWallDesc | CountDesc | MemDeltaDesc | FqnAsc

  predicate TextLess(a: string, b: string) {
    b != [] && (a == [] || a[0] < b[0] || (a[0] == b[0] && TextLess(a[1..], b[1..])))
  }

  /** The whitelisted sort clause without its tie-break. */
  predicate KeyLess(t: Tables, sort: Sort, m: nat, n: nat)
    requires m in t.nodes && t.nodes[m].fnId in t.dict && n in t.nodes && t.nodes[n].fnId in t.dict
  {
    var a, b := t.nodes[m], t.nodes[n];
    match sort
    case TotalWallDesc => a.totals.wall > b.totals.wall
    case SelfWallDesc => a.totals.wall - a.childrenWall > b.totals.wall - b.childrenWall
    case CountDesc => a.totals.calls > b.totals.calls
    case MemDeltaDesc => a.totals.mem > b.totals.mem
    case FqnAsc => TextLess(t.dict[a.fnId].fqn, t.dict[b.fnId].fqn)
  }

  predicate InTables(t: Tables, rows: seq<Placed>) {
    forall p :: p in rows ==> p.nodeId in t.nodes && t.nodes[p.nodeId].fnId in t.dict
  }

  predicate Before(t: Tables, sort: Sort, a: Placed, b: Placed)
    requires InTables(t, [a, b])
  {
    assert a in [a, b] && b in [a, b];
    || a.level < b.level
    || (a.level == b.level &&
        (KeyLess(t, sort, a.nodeId, b.nodeId) || (!KeyLess(t, sort, b.nodeId, a.nodeId) && a.nodeId < b.nodeId)))
  }

  /** No row comes after one it should precede. */
  ghost predicate Ordered(t: Tables, sort: Sort, rows: seq<Placed>)
    requires InTables(t, rows)
  {
    forall i, j :: 0 <= i < j < |rows| ==> !Before(t, sort, rows[j], rows[i])
  }

  /** `rows` is what the statement returns under the row order `scan`. */
  ghost predicate Answer(t: Tables, scan: seq<nat>, maxDepth: nat, sort: Sort, rows: seq<Placed>) {
    multiset(rows) == multiset(Query(t, scan, maxDepth)) && InTables(t, rows) && Ordered(t, sort, rows)
  }

  // ---- the handler ----

  datatype Item = Item(
    nodeId: nat, parent: nat, depth: nat, entry: DictEntry, totals: Totals, selfWall: int,
    anomalyCount: nat, hasChildren: bool, childrenLoaded: bool)

  predicate HasChildren(t: Tables, n: nat) {
    exists c :: c in t.nodes && ChildOf(t.nodes, c, n)
  }

  /** COUNT(*) grouped by node; finalize's rows have a NULL node id and join nothing. */
  function AnomalyCount(anomalies: seq<Anomaly>, n: nat): nat {
    if anomalies == [] then 0
    else (if anomalies[0].InvertedTime? && anomalies[0].nodeId == n then 1 else 0) + AnomalyCount(anomalies[1..], n)
  }

  function ToItem(t: Tables, p: Placed, childrenLoaded: bool): Item
    requires p.nodeId in t.nodes && t.nodes[p.nodeId].fnId in t.dict
  {
    var row := t.nodes[p.nodeId];
    var own := row.totals.wall - row.childrenWall;
    Item(p.nodeId, row.parent, row.depth, t.dict[row.fnId], row.totals, if own < 0 then 0 else own,
         AnomalyCount(t.anomalies, p.nodeId), HasChildren(t, p.nodeId), childrenLoaded)
  }

  function TreeItem(t: Tables, p: Placed, maxDepth: nat): Item
    requires p.nodeId in t.nodes && t.nodes[p.nodeId].fnId in t.dict
  {
    ToItem(t, p, p.level < maxDepth || !HasChildren(t, p.nodeId))
  }

  /** The handler's loop over the fetched rows. */
  method BuildItems(t: Tables, rows: seq<Placed>, maxDepth: nat) returns (items: seq<Item>)
    requires InTables(t, rows)
    ensures |items| == |rows|
    ensures forall i :: 0 <= i < |rows| ==> items[i] == TreeItem(t, rows[i], maxDepth)
  {
    items := [];
    for i := 0 to |rows|
      invariant |items| == i
      invariant forall k :: 0 <= k < i ==> items[k] == TreeItem(t, rows[k], maxDepth)
    {
      var childrenLoaded := rows[i].level < maxDepth || !HasChildren(t, rows[i].nodeId);
      items := items + [ToItem(t, rows[i], childrenLoaded)];
    }
  }

  // ---- the CTE reads off the levels of the tree ----

  /** Distance from the root. */
  ghost function LevelOf(nodes: map<nat, Node>, n: nat): nat
    requires Shape(nodes) && n in nodes
  {
    NodePath(nodes, n).Length()
  }

  lemma LevelStep(nodes: map<nat, Node>, n: nat)
    requires Shape(nodes) && n in nodes
    ensures n == ROOT <==> nodes[n].parent == NULL
    ensures n == ROOT <==> LevelOf(nodes, n) == 0
    ensures n != ROOT ==> nodes[n].parent in nodes && LevelOf(nodes, n) == LevelOf(nodes, nodes[n].parent) + 1
  {
  }

  ghost predicate OnLevel(nodes: map<nat, Node>, n: nat, k: nat)
    requires Shape(nodes)
  {
    n in nodes && LevelOf(nodes, n) == k
  }

  /** `level` lists the nodes at distance `k`, once each. */
  ghost predicate ListsLevel(nodes: map<nat, Node>, level: seq<nat>, k: nat)
    requires Shape(nodes)
  {
    forall n :: multiset(level)[n] == if OnLevel(nodes, n, k) then 1 else 0
  }

  lemma {:induction false} RootsCount(nodes: map<nat, Node>, scan: seq<nat>, n: nat)
    ensures multiset(Roots(nodes, scan))[n] == if n in nodes && nodes[n].parent == NULL then multiset(scan)[n] else 0
  {
    if scan != [] {
      RootsCount(nodes, scan[1..], n);
      assert scan == [scan[0]] + scan[1..];
    }
  }

  lemma {:induction false} JoinOneCount(nodes: map<nat, Node>, scan: seq<nat>, t: nat, n: nat)
    ensures multiset(JoinOne(nodes, scan, t))[n] == if ChildOf(nodes, n, t) then multiset(scan)[n] else 0
  {
    if scan != [] {
      JoinOneCount(nodes, scan[1..], t, n);
      assert scan == [scan[0]] + scan[1..];
    }
  }

  lemma HeadCount(level: seq<nat>, n: nat)
    requires level != []
    ensures multiset(level)[n] == multiset(level[1..])[n] + if level[0] == n then 1 else 0
  {
    assert level == [level[0]] + level[1..];
  }

  lemma {:induction false} JoinLevelCount(nodes: map<nat, Node>, scan: seq<nat>, level: seq<nat>, n: nat)
    requires Scan(nodes, scan)
    ensures multiset(JoinLevel(nodes, scan, level))[n]
         == if n in nodes && nodes[n].parent != NULL then multiset(level)[nodes[n].parent] else 0
  {
    hide JoinOne;
    if level != [] {
      JoinLevelCount(nodes, scan, level[1..], n);
      JoinOneCount(nodes, scan, level[0], n);
      if n in nodes {
        HeadCount(level, nodes[n].parent);
      }
    }
  }

  lemma RootsAreLevelZero(nodes: map<nat, Node>, scan: seq<nat>)
    requires Shape(nodes) && Scan(nodes, scan)
    ensures ListsLevel(nodes, Roots(nodes, scan), 0)
  {
    hide Shape, LevelOf;
    forall n
      ensures multiset(Roots(nodes, scan))[n] == if OnLevel(nodes, n, 0) then 1 else 0
    {
      RootsCount(nodes, scan, n);
      if n in nodes {
        LevelStep(nodes, n);
      }
    }
  }

  lemma JoinIsNextLevel(nodes: map<nat, Node>, scan: seq<nat>, level: seq<nat>, k: nat)
    requires Shape(nodes) && Scan(nodes, scan) && ListsLevel(nodes, level, k)
    ensures ListsLevel(nodes, JoinLevel(nodes, scan, level), k + 1)
  {
    hide Shape, LevelOf;
    forall n
      ensures multiset(JoinLevel(nodes, scan, level))[n] == if OnLevel(nodes, n, k + 1) then 1 else 0
    {
      JoinLevelCount(nodes, scan, level, n);
      if n in nodes {
        LevelStep(nodes, n);
      }
    }
  }

  lemma {:induction false} AtLevelCount(level: seq<nat>, k: nat, p: Placed)
    ensures multiset(AtLevel(level, k))[p] == if p.level == k then multiset(level)[p.nodeId] else 0
  {
    if level != [] {
      AtLevelCount(level[1..], k, p);
      assert level == [level[0]] + level[1..];
    }
  }

  /** A row of the CTE belongs in the answer. */
  ghost predicate Wanted(nodes: map<nat, Node>, p: Placed, from: nat, maxDepth: nat)
    requires Shape(nodes)
  {
    OnLevel(nodes, p.nodeId, p.level) && from <= p.level <= maxDepth
  }

  lemma {:induction false} LevelsCount(nodes: map<nat, Node>, scan: seq<nat>, level: seq<nat>, k: nat, maxDepth: nat,
                                       p: Placed)
    requires Shape(nodes) && Scan(nodes, scan) && ListsLevel(nodes, level, k) && k <= maxDepth
    ensures multiset(Levels(nodes, scan, level, k, maxDepth))[p] == if Wanted(nodes, p, k, maxDepth) then 1 else 0
    decreases maxDepth - k
  {
    hide Shape, OnLevel, Scan;
    AtLevelCount(level, k, p);
    if k < maxDepth {
      JoinIsNextLevel(nodes, scan, level, k);
      LevelsCount(nodes, scan, JoinLevel(nodes, scan, level), k + 1, maxDepth, p);
    }
  }

  lemma {:induction false} JoinDictDropsNothing(t: Tables, rows: seq<Placed>)
    requires InTables(t, rows)
    ensures JoinDict(t, rows) == rows
  {
    if rows != [] {
      assert forall p :: p in rows[1..] ==> p in rows;
      JoinDictDropsNothing(t, rows[1..]);
    }
  }

  /** The multiset of returned rows: every node within `maxDepth` levels once, with its distance. */
  lemma QueryCount(t: Tables, scan: seq<nat>, maxDepth: nat, p: Placed)
    requires TreeOk(t) && Scan(t.nodes, scan)
    ensures multiset(Query(t, scan, maxDepth))[p] == if Wanted(t.nodes, p, 0, maxDepth) then 1 else 0
  {
    hide Shape, UniqueKeys, LevelOf, Levels;
    RootsAreLevelZero(t.nodes, scan);
    var rows := Levels(t.nodes, scan, Roots(t.nodes, scan), 0, maxDepth);
    forall q | q in rows
      ensures q.nodeId in t.nodes && t.nodes[q.nodeId].fnId in t.dict
    {
      LevelsCount(t.nodes, scan, Roots(t.nodes, scan), 0, maxDepth, q);
      assert multiset(rows)[q] > 0;
    }
    JoinDictDropsNothing(t, rows);
    LevelsCount(t.nodes, scan, Roots(t.nodes, scan), 0, maxDepth, p);
  }

  // ---- what the response says ----

  /** The node is one of the returned rows. */
  ghost predicate Shown(rows: seq<Placed>, n: nat) {
    exists i :: 0 <= i < |rows| && rows[i].nodeId == n
  }

  lemma TwiceCounts<T>(s: seq<T>, i: nat, j: nat)
    requires i < j < |s| && s[i] == s[j]
    ensures multiset(s)[s[i]] >= 2
  {
    assert s == s[..j] + s[j..];
    assert s[i] in s[..j] && s[j] in s[j..];
  }

  lemma AnswerRows(t: Tables, scan: seq<nat>, maxDepth: nat, sort: Sort, rows: seq<Placed>)
    requires TreeOk(t) && Scan(t.nodes, scan) && Answer(t, scan, maxDepth, sort, rows)
    ensures forall p :: p in rows <==> Wanted(t.nodes, p, 0, maxDepth)
    ensures forall i, j :: 0 <= i < j < |rows| ==> rows[i] != rows[j]
  {
    hide Shape, UniqueKeys, Wanted, Query, Ordered;
    forall p
      ensures multiset(rows)[p] == if Wanted(t.nodes, p, 0, maxDepth) then 1 else 0
      ensures p in rows <==> Wanted(t.nodes, p, 0, maxDepth)
    {
      QueryCount(t, scan, maxDepth, p);
      assert p in rows <==> p in multiset(rows);
    }
    forall i, j | 0 <= i < j < |rows|
      ensures rows[i] != rows[j]
    {
      if rows[i] == rows[j] {
        TwiceCounts(rows, i, j);
      }
    }
  }

  /** The tree endpoint returns exactly the nodes within `maxDepth` levels of the root, once each. */
  lemma WindowIsExact(t: Tables, scan: seq<nat>, maxDepth: nat, sort: Sort, rows: seq<Placed>)
    requires TreeOk(t) && Scan(t.nodes, scan) && Answer(t, scan, maxDepth, sort, rows)
    ensures forall n :: Shown(rows, n) <==> n in t.nodes && LevelOf(t.nodes, n) <= maxDepth
    ensures forall i, j :: 0 <= i < j < |rows| ==> rows[i].nodeId != rows[j].nodeId
    ensures forall i :: 0 <= i < |rows| ==>
      rows[i].nodeId in t.nodes && rows[i].level == LevelOf(t.nodes, rows[i].nodeId)
  {
    hide Shape, UniqueKeys, LevelOf, Answer;
    AnswerRows(t, scan, maxDepth, sort, rows);
    forall n | n in t.nodes && LevelOf(t.nodes, n) <= maxDepth
      ensures Shown(rows, n)
    {
      assert Wanted(t.nodes, Placed(n, LevelOf(t.nodes, n)), 0, maxDepth);
      assert Placed(n, LevelOf(t.nodes, n)) in rows;
    }
    forall i | 0 <= i < |rows|
      ensures Wanted(t.nodes, rows[i], 0, maxDepth)
    {
      assert rows[i] in rows;
    }
  }

  /** Every returned node other than the root comes after its parent. */
  lemma ParentsFirst(t: Tables, scan: seq<nat>, maxDepth: nat, sort: Sort, rows: seq<Placed>, i: nat)
    requires TreeOk(t) && Scan(t.nodes, scan) && Answer(t, scan, maxDepth, sort, rows)
    requires i < |rows| && rows[i].nodeId != ROOT
    ensures rows[i].nodeId in t.nodes && Shown(rows[..i], t.nodes[rows[i].nodeId].parent)
  {
    hide Shape, UniqueKeys, LevelOf, Query, KeyLess;
    WindowIsExact(t, scan, maxDepth, sort, rows);
    LevelStep(t.nodes, rows[i].nodeId);
    assert Shown(rows, rows[i].nodeId);
    assert Shown(rows, t.nodes[rows[i].nodeId].parent);
    var j :| 0 <= j < |rows| && rows[j].nodeId == t.nodes[rows[i].nodeId].parent;
    assert Before(t, sort, rows[j], rows[i]);
    assert j < i;
    assert rows[..i][j] == rows[j];
  }

  /** `children_loaded` is true exactly when all of the node's children are in the response. */
  lemma ChildrenLoadedIff(t: Tables, scan: seq<nat>, maxDepth: nat, sort: Sort, rows: seq<Placed>, i: nat)
    requires TreeOk(t) && Scan(t.nodes, scan) && Answer(t, scan, maxDepth, sort, rows) && i < |rows|
    ensures InTables(t, [rows[i]])
    ensures rows[i].nodeId in t.nodes && t.nodes[rows[i].nodeId].fnId in t.dict
    ensures TreeItem(t, rows[i], maxDepth).childrenLoaded
       <==> forall c :: c in t.nodes && t.nodes[c].parent == rows[i].nodeId ==> Shown(rows, c)
  {
    hide Shape, UniqueKeys, LevelOf, Query, KeyLess, Ordered, AnomalyCount, Before;
    WindowIsExact(t, scan, maxDepth, sort, rows);
    var n := rows[i].nodeId;
    assert rows[i] in rows;
    assert Shown(rows, n);
    forall c | c in t.nodes && t.nodes[c].parent == n
      ensures Shown(rows, c) <==> rows[i].level < maxDepth
      ensures ChildOf(t.nodes, c, n)
    {
      LevelStep(t.nodes, c);
      LevelStep(t.nodes, n);
      NullIsNoNode(t, n);
    }
  }

  lemma NullIsNoNode(t: Tables, n: nat)
    requires TreeOk(t) && n in t.nodes
    ensures n != NULL
  {
  }

  /** The tie-break makes the order total: neither the plan nor the sorting algorithm shows. */
  lemma {:induction false} OrderedUnique(t: Tables, sort: Sort, a: seq<Placed>, b: seq<Placed>)
    requires InTables(t, a) && InTables(t, b) && Ordered(t, sort, a) && Ordered(t, sort, b)
    requires multiset(a) == multiset(b)
    ensures a == b
  {
    hide Ordered, InTables;
    if a != [] && b != [] {
      assert a[0] in multiset(b) && b[0] in multiset(a);
      SameHead(t, sort, a, b);
      TailCounts(a);
      TailCounts(b);
      OrderedTail(t, sort, a);
      OrderedTail(t, sort, b);
      OrderedUnique(t, sort, a[1..], b[1..]);
      assert a == [a[0]] + a[1..] && b == [b[0]] + b[1..];
    } else {
      assert |multiset(a)| == |a| && |multiset(b)| == |b|;
    }
  }

  lemma TailCounts(a: seq<Placed>)
    requires a != []
    ensures multiset(a[1..]) == multiset(a) - multiset{a[0]}
  {
    assert a == [a[0]] + a[1..];
  }

  lemma OrderedTail(t: Tables, sort: Sort, a: seq<Placed>)
    requires InTables(t, a) && Ordered(t, sort, a) && a != []
    ensures InTables(t, a[1..]) && Ordered(t, sort, a[1..])
  {
    hide Before;
    assert forall p :: p in a[1..] ==> p in a;
  }

  lemma SameHead(t: Tables, sort: Sort, a: seq<Placed>, b: seq<Placed>)
    requires InTables(t, a) && InTables(t, b) && Ordered(t, sort, a) && Ordered(t, sort, b)
    requires a != [] && b != [] && a[0] in b && b[0] in a
    ensures a[0] == b[0]
  {
    hide KeyLess;
    var i :| 0 <= i < |b| && b[i] == a[0];
    var j :| 0 <= j < |a| && a[j] == b[0];
    if i > 0 && j > 0 {
      assert !Before(t, sort, b[i], b[0]);
      assert !Before(t, sort, a[j], a[0]);
    }
  }

  lemma PlanDoesNotMatter(t: Tables, scan1: seq<nat>, scan2: seq<nat>, maxDepth: nat, sort: Sort, rows1: seq<Placed>,
                          rows2: seq<Placed>)
    requires TreeOk(t) && Scan(t.nodes, scan1) && Scan(t.nodes, scan2)
    requires Answer(t, scan1, maxDepth, sort, rows1) && Answer(t, scan2, maxDepth, sort, rows2)
    ensures rows1 == rows2
  {
    hide Shape, UniqueKeys, Wanted, Query, Ordered, Scan, InTables;
    forall p
      ensures multiset(rows1)[p] == multiset(rows2)[p]
    {
      QueryCount(t, scan1, maxDepth, p);
      QueryCount(t, scan2, maxDepth, p);
    }
    OrderedUnique(t, sort, rows1, rows2);
  }

  // ---- what the rows are sorted by ----

  /** `a` equals `b` or comes before it by the first character in which they differ; a prefix comes first. */
  ghost predicate AtMost(a: string, b: string) {
    exists k: nat :: CommonPrefix(a, b, k) && (k == |a| || (k < |b| && a[k] < b[k]))
  }

  predicate CommonPrefix(a: string, b: string, k: nat) {
    k <= |a| && k <= |b| && a[..k] == b[..k]
  }

  lemma {:induction false} NotLessMeans(a: string, b: string)
    ensures !TextLess(b, a) ==> AtMost(a, b)
  {
    if !TextLess(b, a) {
      if a == [] || b == [] || a[0] != b[0] {
        assert CommonPrefix(a, b, 0);
      } else {
        NotLessMeans(a[1..], b[1..]);
        var k: nat :| CommonPrefix(a[1..], b[1..], k) && (k == |a[1..]| || (k < |b[1..]| && a[1..][k] < b[1..][k]));
        assert a[..k + 1] == [a[0]] + a[1..][..k] && b[..k + 1] == [b[0]] + b[1..][..k];
        assert CommonPrefix(a, b, k + 1);
      }
    }
  }

  lemma {:induction false} LessIsNotEqual(a: string, b: string)
    ensures TextLess(a, b) ==> a != b
  {
    if a != [] && b != [] && a[0] == b[0] {
      LessIsNotEqual(a[1..], b[1..]);
    }
  }

  /** One row's place before another, in terms of the figures shown: larger first, names ascending; the self
      wall is the one before the clamp. Rows alike in it stand by node id. */
  ghost predicate InSortOrder(sort: Sort, a: Item, aChildren: int, b: Item, bChildren: int) {
    match sort
    case TotalWallDesc => a.totals.wall >= b.totals.wall && (a.totals.wall == b.totals.wall ==> a.nodeId < b.nodeId)
    case SelfWallDesc =>
      && a.totals.wall - aChildren >= b.totals.wall - bChildren
      && (a.totals.wall - aChildren == b.totals.wall - bChildren ==> a.nodeId < b.nodeId)
    case CountDesc => a.totals.calls >= b.totals.calls && (a.totals.calls == b.totals.calls ==> a.nodeId < b.nodeId)
    case MemDeltaDesc => a.totals.mem >= b.totals.mem && (a.totals.mem == b.totals.mem ==> a.nodeId < b.nodeId)
    case FqnAsc => AtMost(a.entry.fqn, b.entry.fqn) && (a.entry.fqn == b.entry.fqn ==> a.nodeId < b.nodeId)
  }

  /** Levels never decrease along the response, and within a level the whitelisted key decides. */
  lemma SortedAsAsked(t: Tables, scan: seq<nat>, maxDepth: nat, sort: Sort, rows: seq<Placed>, i: nat, j: nat)
    requires TreeOk(t) && Scan(t.nodes, scan) && Answer(t, scan, maxDepth, sort, rows) && i < j < |rows|
    ensures rows[i].nodeId in t.nodes && t.nodes[rows[i].nodeId].fnId in t.dict
    ensures rows[j].nodeId in t.nodes && t.nodes[rows[j].nodeId].fnId in t.dict
    ensures rows[i].level <= rows[j].level
    ensures rows[i].level == rows[j].level ==>
              InSortOrder(sort, TreeItem(t, rows[i], maxDepth), t.nodes[rows[i].nodeId].childrenWall,
                          TreeItem(t, rows[j], maxDepth), t.nodes[rows[j].nodeId].childrenWall)
  {
    hide Shape, UniqueKeys, LevelOf, Query, TextLess, AtMost, HasChildren, AnomalyCount, Scan, OnLevel, Wanted;
    WindowIsExact(t, scan, maxDepth, sort, rows);
    assert rows[i] in rows && rows[j] in rows;
    assert !Before(t, sort, rows[j], rows[i]);
    var x, y := t.dict[t.nodes[rows[i].nodeId].fnId].fqn, t.dict[t.nodes[rows[j].nodeId].fnId].fqn;
    NotLessMeans(x, y);
    LessIsNotEqual(x, y);
  }

  // ---- there is always an answer ----

  lemma {:induction false} TextLessTransitive(a: string, b: string, c: string)
    requires TextLess(a, b) && TextLess(b, c)
    ensures TextLess(a, c)
  {
    if a != [] && a[0] == b[0] && b[0] == c[0] {
      TextLessTransitive(a[1..], b[1..], c[1..]);
    }
  }

  lemma {:induction false} TextLessTotal(a: string, b: string)
    ensures TextLess(a, b) || TextLess(b, a) || a == b
  {
    if a != [] && b != [] && a[0] == b[0] {
      TextLessTotal(a[1..], b[1..]);
      assert a == [a[0]] + a[1..] && b == [b[0]] + b[1..];
    }
  }

  ghost predicate HasEntry(t: Tables, n: nat) {
    n in t.nodes && t.nodes[n].fnId in t.dict
  }

  /** `m` before `n` within a level, the tie-break included. */
  ghost predicate RowBefore(t: Tables, sort: Sort, m: nat, n: nat)
    requires HasEntry(t, m) && HasEntry(t, n)
  {
    KeyLess(t, sort, m, n) || (!KeyLess(t, sort, n, m) && m < n)
  }

  lemma RowBeforeTransitive(t: Tables, sort: Sort, l: nat, m: nat, n: nat)
    requires HasEntry(t, l) && HasEntry(t, m) && HasEntry(t, n)
    requires RowBefore(t, sort, l, m) && RowBefore(t, sort, m, n)
    ensures RowBefore(t, sort, l, n)
  {
    hide TextLess;
    if sort == FqnAsc {
      var x, y, z := t.dict[t.nodes[l].fnId].fqn, t.dict[t.nodes[m].fnId].fqn, t.dict[t.nodes[n].fnId].fqn;
      TextLessTotal(x, y);
      TextLessTotal(y, z);
      TextOrder(x, y, z);
    }
  }

  lemma TextOrder(x: string, y: string, z: string)
    ensures TextLess(x, y) && TextLess(y, z) ==> TextLess(x, z)
    ensures TextLess(z, x) && TextLess(x, y) ==> TextLess(z, y)
    ensures TextLess(y, z) && TextLess(z, x) ==> TextLess(y, x)
    ensures !(TextLess(x, y) && TextLess(y, x)) && !(TextLess(y, z) && TextLess(z, y))
  {
    hide TextLess;
    if TextLess(x, y) && TextLess(y, z) { TextLessTransitive(x, y, z); }
    if TextLess(z, x) && TextLess(x, y) { TextLessTransitive(z, x, y); }
    if TextLess(y, z) && TextLess(z, x) { TextLessTransitive(y, z, x); }
    TextLessAsymmetric(x, y);
    TextLessAsymmetric(y, z);
  }

  lemma {:induction false} TextLessAsymmetric(a: string, b: string)
    ensures !(TextLess(a, b) && TextLess(b, a))
  {
    if a != [] && b != [] {
      TextLessAsymmetric(a[1..], b[1..]);
    }
  }

  lemma BeforeTransitive(t: Tables, sort: Sort, a: Placed, b: Placed, c: Placed)
    requires InTables(t, [a, b]) && InTables(t, [b, c]) && InTables(t, [a, c])
    requires Before(t, sort, a, b) && Before(t, sort, b, c)
    ensures Before(t, sort, a, c)
  {
    hide KeyLess;
    assert a in [a, b] && b in [a, b] && c in [b, c];
    if a.level == b.level == c.level {
      RowBeforeTransitive(t, sort, a.nodeId, b.nodeId, c.nodeId);
    }
  }

  lemma BeforeIsTotal(t: Tables, sort: Sort, a: Placed, b: Placed)
    requires InTables(t, [a, b]) && InTables(t, [b, a])
    ensures Before(t, sort, a, b) || Before(t, sort, b, a) || a == b
    ensures !(Before(t, sort, a, b) && Before(t, sort, b, a))
  {
    hide TextLess;
    assert a in [a, b] && b in [a, b];
    if sort == FqnAsc {
      TextLessAsymmetric(t.dict[t.nodes[a.nodeId].fnId].fqn, t.dict[t.nodes[b.nodeId].fnId].fqn);
    }
  }

  lemma PairsInTables(t: Tables, rows: seq<Placed>)
    requires InTables(t, rows)
    ensures forall a, b :: a in rows && b in rows ==> InTables(t, [a, b])
  {
  }

  /** `x` goes in front of rows none of which should precede it. */
  lemma PutFirst(t: Tables, sort: Sort, x: Placed, rows: seq<Placed>)
    requires InTables(t, [x] + rows) && InTables(t, rows) && Ordered(t, sort, rows)
    requires forall p :: p in rows ==> InTables(t, [p, x]) && !Before(t, sort, p, x)
    ensures Ordered(t, sort, [x] + rows)
  {
    hide Before, InTables;
    var out := [x] + rows;
    PairsInTables(t, out);
    forall i, j | 0 <= i < j < |out|
      ensures !Before(t, sort, out[j], out[i])
    {
      assert out[j] == rows[j - 1] && rows[j - 1] in rows;
      if i > 0 {
        assert out[i] == rows[i - 1];
      }
    }
  }

  /** If the first row need not come before `x`, no row does. */
  lemma NoneBefore(t: Tables, sort: Sort, x: Placed, rows: seq<Placed>, p: Placed)
    requires InTables(t, [x] + rows) && InTables(t, rows) && Ordered(t, sort, rows) && rows != [] && p in rows
    requires InTables(t, [rows[0], x]) && !Before(t, sort, rows[0], x)
    ensures InTables(t, [p, x]) && !Before(t, sort, p, x)
  {
    hide Before, InTables;
    PairsInTables(t, [x] + rows);
    var first := rows[0];
    assert x in [x] + rows && p in [x] + rows && first in [x] + rows;
    BeforeIsTotal(t, sort, first, x);
    if Before(t, sort, p, x) && p != first {
      var j :| 0 < j < |rows| && rows[j] == p;
      if x != first {
        BeforeTransitive(t, sort, p, x, first);
      }
    }
  }

  lemma {:induction false} Insert(t: Tables, sort: Sort, x: Placed, rows: seq<Placed>) returns (out: seq<Placed>)
    requires InTables(t, [x] + rows) && InTables(t, rows) && Ordered(t, sort, rows)
    ensures multiset(out) == multiset(rows) + multiset{x} && InTables(t, out) && Ordered(t, sort, out)
  {
    hide Before, Ordered, InTables;
    out := [x] + rows;
    SameElements(t, [x] + rows, out);
    if rows == [] {
      OneOrdered(t, sort, x);
      assert out == [x];
    } else {
      var first, rest := rows[0], rows[1..];
      assert rows == [first] + rest;
      PairsInTables(t, [x] + rows);
      assert forall p :: p in [x] + rows <==> p == x || p == first || p in rest;
      if Before(t, sort, first, x) {
        OrderedTail(t, sort, rows);
        SubTables(t, [x] + rows, [x] + rest);
        var tail := Insert(t, sort, x, rest);
        out := [first] + tail;
        SameElements(t, [x] + rows, out);
        forall p | p in tail
          ensures InTables(t, [p, first]) && !Before(t, sort, p, first)
        {
          assert p in multiset(tail);
          assert p == x || p in rest;
          if p == x {
            BeforeIsTotal(t, sort, first, x);
          } else {
            FirstIsLeast(t, sort, rows, p);
          }
        }
        PutFirst(t, sort, first, tail);
      } else {
        forall p | p in rows
          ensures InTables(t, [p, x]) && !Before(t, sort, p, x)
        {
          NoneBefore(t, sort, x, rows, p);
        }
        PutFirst(t, sort, x, rows);
      }
    }
  }

  lemma FirstIsLeast(t: Tables, sort: Sort, rows: seq<Placed>, p: Placed)
    requires InTables(t, rows) && Ordered(t, sort, rows) && rows != [] && p in rows[1..]
    ensures InTables(t, [p, rows[0]]) && !Before(t, sort, p, rows[0])
  {
    hide Before;
    var j :| 0 <= j < |rows[1..]| && rows[1..][j] == p;
    assert rows[j + 1] == p && rows[0] in rows;
  }

  lemma OneOrdered(t: Tables, sort: Sort, x: Placed)
    requires InTables(t, [x] + [])
    ensures InTables(t, [x]) && Ordered(t, sort, [x])
  {
    assert [x] + [] == [x];
  }

  lemma SubTables(t: Tables, a: seq<Placed>, b: seq<Placed>)
    requires InTables(t, a) && forall p :: p in b ==> p in a
    ensures InTables(t, b)
  {
  }

  lemma SameElements(t: Tables, a: seq<Placed>, b: seq<Placed>)
    requires InTables(t, a)
    ensures multiset(a) == multiset(b) ==> InTables(t, b)
  {
    if multiset(a) == multiset(b) {
      forall p | p in b
        ensures p in a
      {
        assert p in multiset(b);
      }
    }
  }

  lemma {:induction false} Sorted(t: Tables, sort: Sort, rows: seq<Placed>) returns (out: seq<Placed>)
    requires InTables(t, rows)
    ensures multiset(out) == multiset(rows) && InTables(t, out) && Ordered(t, sort, out)
  {
    hide Before, Ordered, InTables;
    if rows == [] {
      out := [];
      NothingOrdered(t, sort);
    } else {
      assert rows == [rows[0]] + rows[1..];
      SubTables(t, rows, rows[1..]);
      var tail := Sorted(t, sort, rows[1..]);
      assert multiset([rows[0]] + tail) == multiset(rows);
      SameElements(t, rows, [rows[0]] + tail);
      out := Insert(t, sort, rows[0], tail);
    }
  }

  lemma NothingOrdered(t: Tables, sort: Sort)
    ensures InTables(t, []) && Ordered(t, sort, [])
  {
  }

  /** The statement has an answer for every table, depth and sort key. */
  lemma AnswerExists(t: Tables, scan: seq<nat>, maxDepth: nat, sort: Sort) returns (rows: seq<Placed>)
    ensures Answer(t, scan, maxDepth, sort, rows)
  {
    hide Levels, Ordered;
    JoinedInTables(t, Levels(t.nodes, scan, Roots(t.nodes, scan), 0, maxDepth));
    rows := Sorted(t, sort, Query(t, scan, maxDepth));
  }

  lemma {:induction false} JoinedInTables(t: Tables, rows: seq<Placed>)
    ensures InTables(t, JoinDict(t, rows))
  {
    if rows != [] {
      JoinedInTables(t, rows[1..]);
    }
  }

  /** `a` is `n` or one of its ancestors. */
  ghost predicate Above(nodes: map<nat, Node>, a: nat, n: nat)
    requires Shape(nodes) && n in nodes
    decreases n
  {
    a == n || (n != ROOT && Above(nodes, a, nodes[n].parent))
  }

  lemma {:induction false} AncestorAtLevel(nodes: map<nat, Node>, n: nat, k: nat) returns (a: nat, child: nat)
    requires Shape(nodes) && n in nodes && k < LevelOf(nodes, n)
    ensures a in nodes && LevelOf(nodes, a) == k && child in nodes && nodes[child].parent == a && child != ROOT
    ensures Above(nodes, a, n) && Above(nodes, child, n)
    decreases n
  {
    LevelStep(nodes, n);
    if LevelOf(nodes, n) == k + 1 {
      a, child := nodes[n].parent, n;
    } else {
      a, child := AncestorAtLevel(nodes, nodes[n].parent, k);
    }
  }

  /** Nothing is lost to the depth limit: a node the response leaves out hangs below a returned
      node that is marked as not loaded, so the interface can still reach it. */
  lemma HiddenIsBehindUnloaded(t: Tables, scan: seq<nat>, maxDepth: nat, sort: Sort, rows: seq<Placed>, n: nat)
    returns (i: nat)
    requires TreeOk(t) && Scan(t.nodes, scan) && Answer(t, scan, maxDepth, sort, rows)
    requires n in t.nodes && !Shown(rows, n)
    ensures i < |rows| && InTables(t, rows) && rows[i] in rows && Above(t.nodes, rows[i].nodeId, n)
    ensures !TreeItem(t, rows[i], maxDepth).childrenLoaded && rows[i].level == maxDepth
  {
    hide Shape, UniqueKeys, LevelOf, Query, KeyLess, Ordered, AnomalyCount, Before, Above;
    WindowIsExact(t, scan, maxDepth, sort, rows);
    var a, child := AncestorAtLevel(t.nodes, n, maxDepth);
    assert Shown(rows, a);
    i :| 0 <= i < |rows| && rows[i].nodeId == a;
    NullIsNoNode(t, a);
    assert ChildOf(t.nodes, child, a);
  }

  // ---- the figures in the response ----

  /** Folded calls of row `n` whose clocks ran backwards. */
  ghost function InvertedAt(t: Tables, d: map<nat, Call>, n: nat): set<nat> {
    set id | id in t.callToNode && id in d && t.callToNode[id] == n && Inverted(d[id])
  }

  ghost function IdsAt(anomalies: seq<Anomaly>, n: nat): set<nat> {
    set a | a in anomalies && a.InvertedTime? && a.nodeId == n :: a.callId
  }

  ghost predicate OncePerCall(anomalies: seq<Anomaly>) {
    forall i, j :: 0 <= i < j < |anomalies| && anomalies[i].InvertedTime? && anomalies[j].InvertedTime? ==>
      anomalies[i].callId != anomalies[j].callId
  }

  lemma IdsCons(a: Anomaly, rest: seq<Anomaly>, n: nat)
    ensures IdsAt([a] + rest, n) == IdsAt(rest, n) + if a.InvertedTime? && a.nodeId == n then {a.callId} else {}
  {
  }

  lemma OnceCons(a: Anomaly, rest: seq<Anomaly>, n: nat)
    requires OncePerCall([a] + rest)
    ensures OncePerCall(rest) && (a.InvertedTime? ==> a.callId !in IdsAt(rest, n))
  {
    var all := [a] + rest;
    assert all[0] == a && forall i :: 0 <= i < |rest| ==> all[i + 1] == rest[i];
  }

  lemma {:induction false} CountIsIds(anomalies: seq<Anomaly>, n: nat)
    requires OncePerCall(anomalies)
    ensures AnomalyCount(anomalies, n) == |IdsAt(anomalies, n)|
  {
    hide OncePerCall, IdsAt;
    if anomalies == [] {
      NoIds(n);
    } else {
      assert anomalies == [anomalies[0]] + anomalies[1..];
      OnceCons(anomalies[0], anomalies[1..], n);
      IdsCons(anomalies[0], anomalies[1..], n);
      CountIsIds(anomalies[1..], n);
    }
  }

  lemma NoIds(n: nat)
    ensures IdsAt([], n) == {}
  {
  }

  lemma InvertedOncePerCall(t: Tables, d: map<nat, Call>)
    requires InvertedOnce(d, t.callToNode, t.anomalies)
    ensures OncePerCall(t.anomalies)
    ensures forall n :: IdsAt(t.anomalies, n) == InvertedAt(t, d, n)
  {
    forall a | a in t.anomalies && a.InvertedTime?
      ensures InvertedRow(d, t.callToNode, a)
    {
      assert a in multiset(t.anomalies);
    }
    forall i, j | 0 <= i < j < |t.anomalies| && t.anomalies[i].InvertedTime? && t.anomalies[j].InvertedTime?
      ensures t.anomalies[i].callId != t.anomalies[j].callId
    {
      if t.anomalies[i].callId == t.anomalies[j].callId {
        TwiceCounts(t.anomalies, i, j);
      }
    }
    forall n, id | id in InvertedAt(t, d, n)
      ensures id in IdsAt(t.anomalies, n)
    {
      var a := InvertedTime(n, id, d[id].tIn, d[id].tOut);
      assert InvertedRow(d, t.callToNode, a);
      assert a in multiset(t.anomalies);
    }
  }

  /** Wall time of the calls at row `n` not spent in the calls below it. */
  ghost function OwnWall(t: Tables, d: map<nat, Call>, n: nat): int {
    Total(NodeCalls(d, t.callToNode, n)).wall - Total(ChildCalls(d, t.nodes, t.callToNode, n)).wall
  }

  /** The item is the last function of `path`, below the row of the rest of it. */
  ghost predicate NamesPlace(t: Tables, item: Item, path: Path)
    requires Shape(t.nodes) && item.parent in t.nodes
  {
    path.Under? && path.up == NodePath(t.nodes, item.parent) && path.fnId in t.dict && item.entry == t.dict[path.fnId]
  }

  /** An item names its place in the tree: its parent's context one function up, its own function's
      dictionary entry, its depth if the wire's are right, and children exactly if calls folded below. */
  lemma ItemPlace(t: Tables, d: map<nat, Call>, p: Placed, childrenLoaded: bool)
    requires Inv(t, d) && p.nodeId in t.nodes
    ensures t.nodes[p.nodeId].fnId in t.dict
    ensures var item := ToItem(t, p, childrenLoaded);
            && item.nodeId == p.nodeId
            && (p.nodeId == ROOT ==> item.parent == NULL)
            && (p.nodeId != ROOT ==> item.parent in t.nodes && NamesPlace(t, item, NodePath(t.nodes, p.nodeId)))
            && (WireDepths(d) ==> item.depth == LevelOf(t.nodes, p.nodeId))
            && (item.hasChildren <==> ChildCalls(d, t.nodes, t.callToNode, p.nodeId) != map[])
  {
    hide UniqueKeys, InPlace, Partitioned, Summed, Populated, Aligned, DepthsOk, InvertedOnce, HasChildren,
         AnomalyCount, ChildCalls, WireDepths;
    if WireDepths(d) {
      DepthIsPathLength(t, d, p.nodeId);
    }
    ChildrenMeansCalls(t, d, p.nodeId);
  }

  lemma ChildrenMeansCalls(t: Tables, d: map<nat, Call>, n: nat)
    requires Inv(t, d) && n in t.nodes
    ensures HasChildren(t, n) <==> ChildCalls(d, t.nodes, t.callToNode, n) != map[]
  {
    hide Shape, UniqueKeys, Partitioned, Summed, Populated, Aligned, DepthsOk, InvertedOnce;
    NullIsNoNode(t, n);
    FoldedRowsExist(d, t.nodes, t.callToNode);
    if c :| c in t.nodes && ChildOf(t.nodes, c, n) {
      LevelStep(t.nodes, c);
      var id := RowHasCall(t, d, c);
      assert id in ChildCalls(d, t.nodes, t.callToNode, n);
    }
    if id :| id in ChildCalls(d, t.nodes, t.callToNode, n) {
      assert ChildOf(t.nodes, t.callToNode[id], n);
    }
  }

  /** What an item's figures mean in terms of the delivered calls: counters of exactly the calls at
      that node, its anomaly badge the number of them whose clocks ran backwards, a self time that is
      their own or, where that is negative, zero; below the root of a properly nested trace it never is. */
  lemma ItemFigures(t: Tables, d: map<nat, Call>, p: Placed, childrenLoaded: bool)
    requires Inv(t, d) && p.nodeId in t.nodes
    ensures t.nodes[p.nodeId].fnId in t.dict
    ensures ToItem(t, p, childrenLoaded).totals == Total(NodeCalls(d, t.callToNode, p.nodeId))
    ensures ToItem(t, p, childrenLoaded).anomalyCount == |InvertedAt(t, d, p.nodeId)|
    ensures var self, own := ToItem(t, p, childrenLoaded).selfWall, OwnWall(t, d, p.nodeId);
            self >= 0 && (own >= 0 ==> self == own) && (own < 0 ==> self == 0)
    ensures Nested(d) && p.nodeId != ROOT ==> OwnWall(t, d, p.nodeId) >= 0
  {
    hide Shape, UniqueKeys, InPlace, Partitioned, Populated, Aligned, DepthsOk, InvertedOnce, Nested, Total, NodeCalls,
         ChildCalls, HasChildren, AnomalyCount, InvertedAt;
    InvertedOncePerCall(t, d);
    CountIsIds(t.anomalies, p.nodeId);
    if Nested(d) && p.nodeId != ROOT {
      SelfTimeNonNegative(t, d, p.nodeId);
    }
  }
}
