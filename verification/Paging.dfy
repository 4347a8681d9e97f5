/** The trace list page by page (`api/traces.php`): each request counts and slices on its own, ordered by
    start time alone, so rows that started together may come in a different order every time. */
module Paging {
  import opened Like

  /** The columns of an index row the list depends on; the trace key is the table's primary key. */
  datatype Row = Row(key: string, start: int, uri: string)

  /** Both statements: no filter for the empty query, the LIKE filter otherwise. */
  predicate Listed(q: string, uri: string) {
    q == "" || Matches(LikePattern(q), uri)
  }

  function Matching(rows: set<Row>, q: string): set<Row> {
    set r | r in rows && Listed(q, r.uri)
  }

  ghost function Containing(rows: set<Row>, q: string): set<Row> {
    set r | r in rows && Contains(r.uri, q)
  }

  lemma MatchingIsContaining(rows: set<Row>, q: string)
    ensures Matching(rows, q) == Containing(rows, q)
  {
    forall r | r in rows
      ensures Listed(q, r.uri) <==> Contains(r.uri, q)
    {
      PatternFindsQuery(q, r.uri);
      if q == "" {
        assert FoundAt(r.uri, q, 0);
      }
    }
  }

  /** What `ORDER BY start_time_ns DESC` promises of the rows `s`: each once, newest first, ties in any order. */
  ghost predicate NewestFirst(s: set<Row>, order: seq<Row>) {
    && multiset(order) == multiset(s)
    && forall i, j :: 0 <= i < j < |order| ==> order[i].start >= order[j].start
  }

  function Min(a: nat, b: nat): nat {
    if a <= b then a else b
  }

  datatype Page = Page(items: seq<Row>, hasMore: bool)

  /** One request: LIMIT and OFFSET over an order of the database's choosing, and the separate COUNT(*). */
  function Request(order: seq<Row>, total: nat, limit: nat, offset: nat): Page {
    var from := Min(offset, |order|);
    var items := order[from..Min(from + limit, |order|)];
    Page(items, offset + |items| < total)
  }

  /** A client that follows `has_more`, asking next for what comes after the items it got, as the list view
      does. The request at offset `o` sees the order `orders(o)`; a page with `has_more` is never empty as
      long as the order has `total` rows. */
  ghost function FollowPages(orders: nat -> seq<Row>, total: nat, limit: nat, offset: nat): seq<Row>
    requires limit >= 1
    decreases total - offset
  {
    var page := Request(orders(offset), total, limit, offset);
    page.items + if page.hasMore && page.items != [] then FollowPages(orders, total, limit, offset + |page.items|)
      else []
  }

  // ---- when page boundaries are safe ----

  ghost function Since(s: set<Row>, t: int): set<Row> {
    set r | r in s && r.start >= t
  }

  ghost function After(s: set<Row>, t: int): set<Row> {
    set r | r in s && r.start > t
  }

  /** Boundary `b` falls inside the group of rows that started at `t`. */
  ghost predicate Splits(s: set<Row>, b: nat, t: int) {
    |After(s, t)| < b < |Since(s, t)|
  }

  /** Some page boundary separates rows with equal start time. */
  ghost predicate SomeGroupSplit(s: set<Row>, limit: nat)
    requires limit >= 1
  {
    exists b: nat, t: int :: 0 < b < |s| && b % limit == 0 && Splits(s, b, t)
  }

  lemma MultisetSize(s: set<Row>, order: seq<Row>)
    requires multiset(order) == multiset(s)
    ensures |order| == |s| && (forall r :: r in order <==> r in s)
    ensures forall i, j :: 0 <= i < j < |order| ==> order[i] != order[j]
  {
    assert |multiset(order)| == |order| && |multiset(s)| == |s|;
    assert forall r :: r in order <==> r in multiset(order);
    forall i, j | 0 <= i < j < |order|
      ensures order[i] != order[j]
    {
      TwiceCounts(order, i, j);
    }
  }

  lemma TwiceCounts(order: seq<Row>, i: nat, j: nat)
    requires i < j < |order|
    ensures order[i] == order[j] ==> multiset(order)[order[i]] >= 2
  {
    assert order == order[..j] + order[j..];
    assert order[i] in order[..j] && order[j] in order[j..];
  }

  /** The rows before index `p`. */
  ghost function Head(order: seq<Row>, p: nat): set<Row>
    requires p <= |order|
  {
    set i | 0 <= i < p :: order[i]
  }

  lemma InsertedRow(s: set<Row>, r: Row)
    requires r !in s
    ensures multiset(s + {r}) == multiset(s) + multiset{r} && |s + {r}| == |s| + 1
  {
  }

  lemma HeadStep(order: seq<Row>, p: nat)
    requires 0 < p <= |order| && forall i, j :: 0 <= i < j < |order| ==> order[i] != order[j]
    ensures Head(order, p) == Head(order, p - 1) + {order[p - 1]} && order[p - 1] !in Head(order, p - 1)
    ensures order[..p] == order[..p - 1] + [order[p - 1]]
  {
  }

  lemma {:induction false} HeadSize(order: seq<Row>, p: nat)
    requires p <= |order| && forall i, j :: 0 <= i < j < |order| ==> order[i] != order[j]
    ensures |Head(order, p)| == p && multiset(order[..p]) == multiset(Head(order, p))
  {
    if p == 0 {
      assert Head(order, 0) == {};
    } else {
      hide Head;
      HeadSize(order, p - 1);
      HeadStep(order, p);
      InsertedRow(Head(order, p - 1), order[p - 1]);
    }
  }

  /** In any order, the rows since `t` come first. */
  lemma SinceIsHead(s: set<Row>, order: seq<Row>, t: int)
    requires NewestFirst(s, order)
    ensures |Since(s, t)| <= |order| && multiset(order[..|Since(s, t)|]) == multiset(Since(s, t))
  {
    MultisetSize(s, order);
    var p := FirstBefore(order, t);
    assert Since(s, t) == Head(order, p);
    HeadSize(order, p);
  }

  lemma {:induction false} FirstBefore(order: seq<Row>, t: int) returns (p: nat)
    requires forall i, j :: 0 <= i < j < |order| ==> order[i].start >= order[j].start
    ensures p <= |order| && (forall i :: 0 <= i < p ==> order[i].start >= t)
    ensures forall i :: p <= i < |order| ==> order[i].start < t
  {
    if order == [] {
      p := 0;
    } else if order[|order| - 1].start >= t {
      p := |order|;
    } else {
      p := FirstBefore(order[..|order| - 1], t);
    }
  }

  lemma SinceReaches(s: set<Row>, order: seq<Row>, t: int, k: nat)
    requires NewestFirst(s, order) && k < |order|
    ensures |Since(s, t)| > k <==> order[k].start >= t
  {
    MultisetSize(s, order);
    var p := FirstBefore(order, t);
    assert Since(s, t) == Head(order, p);
    HeadSize(order, p);
  }

  lemma AfterReaches(s: set<Row>, order: seq<Row>, t: int, k: nat)
    requires NewestFirst(s, order) && k < |order|
    ensures |After(s, t)| > k <==> order[k].start > t
  {
    assert After(s, t) == Since(s, t + 1);
    SinceReaches(s, order, t + 1, k);
  }

  lemma SplitsAt(s: set<Row>, order: seq<Row>, b: nat, t: int)
    requires NewestFirst(s, order) && 0 < b < |order|
    ensures Splits(s, b, t) <==> order[b - 1].start <= t <= order[b].start
  {
    hide After, Since;
    SinceReaches(s, order, t, b);
    AfterReaches(s, order, t, b - 1);
  }

  /** A boundary is safe if and only if the rows on its two sides differ in start time. */
  lemma SplitsIff(s: set<Row>, order: seq<Row>, b: nat)
    requires NewestFirst(s, order) && 0 < b < |order|
    ensures (exists t: int :: Splits(s, b, t)) <==> order[b - 1].start == order[b].start
    ensures order[b - 1].start > order[b].start ==> |Since(s, order[b - 1].start)| == b
  {
    hide Splits, Since;
    SplitsAt(s, order, b, order[b].start);
    if t: int :| Splits(s, b, t) {
      SplitsAt(s, order, b, t);
    }
    SinceReaches(s, order, order[b - 1].start, b - 1);
    SinceReaches(s, order, order[b - 1].start, b);
  }

  /** At a safe boundary all orders agree on what comes before. */
  lemma SameHead(s: set<Row>, a: seq<Row>, c: seq<Row>, b: nat)
    requires NewestFirst(s, a) && NewestFirst(s, c) && b <= |s|
    requires b == 0 || b == |s| || !exists t: int :: Splits(s, b, t)
    ensures b <= |a| && b <= |c| && multiset(a[..b]) == multiset(c[..b])
  {
    MultisetSize(s, a);
    MultisetSize(s, c);
    if b == |s| {
      assert a[..b] == a && c[..b] == c;
    } else if b > 0 {
      SplitsIff(s, a, b);
      var t := a[b - 1].start;
      assert |Since(s, t)| == b;
      SinceIsHead(s, a, t);
      SinceIsHead(s, c, t);
    }
  }

  // ---- safe boundaries: every match once ----

  lemma PageSlice(order: seq<Row>, total: nat, limit: nat, offset: nat)
    requires limit >= 1 && |order| == total && offset <= total
    ensures var page, next := Request(order, total, limit, offset), Min(offset + limit, total);
            page.items == order[offset..next] && (page.hasMore <==> next < total)
            && (offset < total ==> page.items != [] && offset + |page.items| == next)
  {
  }

  /** One request of the walk. */
  lemma WalkStep(orders: nat -> seq<Row>, total: nat, limit: nat, offset: nat)
    requires limit >= 1 && offset <= total && |orders(offset)| == total
    ensures var next := Min(offset + limit, total);
            FollowPages(orders, total, limit, offset)
            == orders(offset)[offset..next] + if next < total then FollowPages(orders, total, limit, next) else []
  {
    hide Request;
    PageSlice(orders(offset), total, limit, offset);
  }

  /** From a safe boundary on, the walk lists what lies behind it in any order. */
  lemma {:induction false} SafeFrom(s: set<Row>, orders: nat -> seq<Row>, limit: nat, offset: nat)
    requires limit >= 1 && !SomeGroupSplit(s, limit) && forall o: nat :: NewestFirst(s, orders(o))
    requires offset <= |s| && offset % limit == 0
    ensures |orders(0)| == |s|
    ensures multiset(FollowPages(orders, |s|, limit, offset)) == multiset(orders(0)[offset..])
    decreases |s| - offset
  {
    hide FollowPages, NewestFirst, SomeGroupSplit, Min;
    MultisetSizes(s, orders);
    var next := Min(offset + limit, |s|);
    WalkStep(orders, |s|, limit, offset);
    NextBoundary(|s|, limit, offset);
    PageCounts(s, orders(offset), orders(0), limit, offset, next);
    if next < |s| {
      SafeFrom(s, orders, limit, next);
    } else {
      assert orders(0)[|s|..] == [];
    }
  }

  /** The page between two safe boundaries holds the same rows in any order. */
  lemma PageCounts(s: set<Row>, a: seq<Row>, c: seq<Row>, limit: nat, offset: nat, next: nat)
    requires limit >= 1 && !SomeGroupSplit(s, limit) && NewestFirst(s, a) && NewestFirst(s, c)
    requires offset <= next <= |s| && offset % limit == 0 && (next == |s| || next % limit == 0)
    ensures |a| == |s| && |c| == |s| && multiset(a[offset..next]) + multiset(c[next..]) == multiset(c[offset..])
  {
    hide NewestFirst, SomeGroupSplit, Splits;
    OrderedFacts(s, a);
    OrderedFacts(s, c);
    Boundary(s, limit, offset);
    SameHead(s, a, c, offset);
    if next < |s| {
      Boundary(s, limit, next);
    }
    SameHead(s, a, c, next);
    SliceCounts(a, c, offset, next);
  }

  lemma MultisetSizes(s: set<Row>, orders: nat -> seq<Row>)
    requires forall o: nat :: NewestFirst(s, orders(o))
    ensures forall o: nat :: |orders(o)| == |s|
  {
    forall o: nat
      ensures |orders(o)| == |s|
    {
      assert NewestFirst(s, orders(o));
      MultisetSize(s, orders(o));
    }
  }

  lemma NextBoundary(total: nat, limit: nat, offset: nat)
    requires limit >= 1 && offset <= total && offset % limit == 0
    ensures var next := Min(offset + limit, total);
            offset <= next <= total && (next < total ==> next % limit == 0 && next > offset)
  {
    assert (offset + limit) % limit == offset % limit by { ModAdd(offset, limit); }
  }

  lemma ModAdd(a: nat, m: nat)
    requires m >= 1
    ensures (a + m) % m == a % m
  {
    var q, x := a / m, a + m;
    assert m * (q + 1) == m * q + m;
    SameQuotient(x, m, q + 1, a % m);
  }

  lemma SameQuotient(x: nat, m: nat, q: nat, r: nat)
    requires m >= 1 && x == m * q + r && r < m
    ensures x % m == r
  {
    var k: int := q - x / m;
    assert m * k == m * q - m * (x / m);
    assert m * k == x % m - r;
    Multiples(m, k);
    Multiples(m, -k);
  }

  lemma Multiples(m: nat, k: int)
    ensures k >= 1 ==> m * k >= m
    ensures k == 0 ==> m * k == 0
    ensures m * -k == -(m * k)
  {
  }

  lemma Boundary(s: set<Row>, limit: nat, b: nat)
    requires limit >= 1 && !SomeGroupSplit(s, limit) && b <= |s| && b % limit == 0
    ensures b == 0 || b == |s| || !exists t: int :: Splits(s, b, t)
  {
    hide Splits;
  }

  lemma SliceCounts(a: seq<Row>, c: seq<Row>, from: nat, to: nat)
    requires from <= to <= |a| && to <= |c| && multiset(a[..from]) == multiset(c[..from])
    requires multiset(a[..to]) == multiset(c[..to])
    ensures multiset(a[from..to]) + multiset(c[to..]) == multiset(c[from..])
  {
    assert a[..to] == a[..from] + a[from..to];
    assert c[..to] == c[..from] + c[from..to];
    assert c[from..] == c[from..to] + c[to..];
    Cancel(multiset(a[..from]), multiset(a[from..to]), multiset(c[from..to]));
  }

  lemma Cancel(x: multiset<Row>, y: multiset<Row>, z: multiset<Row>)
    requires x + y == x + z
    ensures y == z
  {
    forall r
      ensures y[r] == z[r]
    {
      assert (x + y)[r] == (x + z)[r];
    }
  }

  // ---- a split group: a choice of orders that shows a row twice ----

  /** `a` up to offset `b`, `c` from there on. */
  ghost function SwitchAt(a: seq<Row>, c: seq<Row>, b: nat): nat -> seq<Row> {
    (o: nat) => if o < b then a else c
  }

  lemma {:induction false} SwitchedPages(a: seq<Row>, c: seq<Row>, b: nat, limit: nat, offset: nat)
    requires limit >= 1 && |a| == |c| && b <= |a| && offset <= |a| && b % limit == 0 && offset % limit == 0
    ensures FollowPages(SwitchAt(a, c, b), |a|, limit, offset) == if offset < b then a[offset..b] + c[b..]
      else c[offset..]
    decreases |a| - offset
  {
    hide FollowPages, Min;
    var orders, total := SwitchAt(a, c, b), |a|;
    var next := Min(offset + limit, total);
    WalkStep(orders, total, limit, offset);
    NextBoundary(total, limit, offset);
    if offset < b {
      BeforeBoundary(b, limit, offset);
      MinIs(offset + limit, total);
    }
    if next < total {
      SwitchedPages(a, c, b, limit, next);
    }
    Pieces(a, c, b, offset, next);
  }

  lemma Pieces(a: seq<Row>, c: seq<Row>, b: nat, offset: nat, next: nat)
    requires |a| == |c| && b <= |a| && offset <= next <= |a| && (offset < b ==> next <= b)
    ensures offset < b && next < b ==> a[offset..next] + (a[next..b] + c[b..]) == a[offset..b] + c[b..]
    ensures offset < b && next == b ==> a[offset..next] + c[next..] == a[offset..b] + c[b..]
    ensures offset >= b ==> c[offset..next] + c[next..] == c[offset..]
    ensures next == |a| ==> c[next..] == []
  {
  }

  lemma MinIs(a: nat, b: nat)
    ensures a <= b ==> Min(a, b) == a
  {
  }

  /** Two multiples of the limit are at least one page apart. */
  lemma BeforeBoundary(b: nat, limit: nat, offset: nat)
    requires limit >= 1 && offset < b && b % limit == 0 && offset % limit == 0
    ensures offset + limit <= b
  {
    var k: int := b / limit - offset / limit;
    assert b == limit * (b / limit) && offset == limit * (offset / limit);
    assert limit * k == b - offset;
    Multiples(limit, k);
    Multiples(limit, -k);
  }

  lemma {:induction false} SomeOrder(s: set<Row>) returns (order: seq<Row>)
    ensures NewestFirst(s, order)
    decreases |s|
  {
    if s == {} {
      order := [];
    } else {
      var r := Oldest(s);
      var rest := SomeOrder(s - {r});
      order := rest + [r];
      MultisetSize(s - {r}, rest);
      assert forall i :: 0 <= i < |rest| ==> rest[i] in s - {r} && rest[i].start >= r.start;
      assert multiset(s) == multiset(s - {r}) + multiset{r};
    }
  }

  lemma {:induction false} Oldest(s: set<Row>) returns (r: Row)
    requires s != {}
    ensures r in s && forall x :: x in s ==> x.start >= r.start
    decreases |s|
  {
    r :| r in s;
    if s != {r} {
      var x := Oldest(s - {r});
      if x.start < r.start {
        r := x;
      }
    }
  }

  /** The order with the rows on both sides of `b` exchanged. */
  function Exchanged(order: seq<Row>, b: nat): seq<Row>
    requires 0 < b < |order|
  {
    order[b - 1 := order[b]][b := order[b - 1]]
  }

  lemma ExchangedInOrder(s: set<Row>, order: seq<Row>, b: nat)
    requires NewestFirst(s, order) && 0 < b < |order| && order[b - 1].start == order[b].start
    ensures NewestFirst(s, Exchanged(order, b))
  {
    var c := Exchanged(order, b);
    assert order == order[..b - 1] + [order[b - 1], order[b]] + order[b + 1..];
    assert c == order[..b - 1] + [order[b], order[b - 1]] + order[b + 1..];
    assert multiset(c) == multiset(order);
  }

  /** With a group split, some choice of orders lists one of its rows twice. */
  lemma SplitShowsTwice(s: set<Row>, limit: nat, b: nat, t: int) returns (orders: nat -> seq<Row>)
    requires limit >= 1 && 0 < b < |s| && b % limit == 0 && Splits(s, b, t)
    ensures forall o: nat :: NewestFirst(s, orders(o))
    ensures multiset(FollowPages(orders, |s|, limit, 0)) != multiset(s)
  {
    hide NewestFirst, Splits, FollowPages;
    var a := SomeOrder(s);
    OrderedFacts(s, a);
    SplitsIff(s, a, b);
    var c := Exchanged(a, b);
    ExchangedInOrder(s, a, b);
    orders := SwitchAt(a, c, b);
    SwitchedPages(a, c, b, limit, 0);
    var listed := a[0..b] + c[b..];
    assert listed[b - 1] == a[b - 1] && listed[b] == a[b - 1];
    assert listed == listed[..b] + listed[b..] && listed[b - 1] in listed[..b] && listed[b] in listed[b..];
    assert multiset(listed)[a[b - 1]] >= 2;
  }

  lemma OrderedFacts(s: set<Row>, order: seq<Row>)
    requires NewestFirst(s, order)
    ensures |order| == |s|
  {
    MultisetSize(s, order);
  }

  /** For every choice the database makes in every request, following `has_more` from the start lists the
      rows whose URI contains the query, each exactly once, if and only if no page boundary falls inside a
      group of such rows with equal start time. */
  lemma PagesListTheMatchesIff(rows: set<Row>, q: string, limit: nat)
    requires limit >= 1
    ensures var s := Containing(rows, q);
            (forall orders: nat -> seq<Row> :: (forall o: nat :: NewestFirst(Matching(rows, q), orders(o))) ==>
               multiset(FollowPages(orders, |Matching(rows, q)|, limit, 0)) == multiset(s))
            <==> !SomeGroupSplit(s, limit)
  {
    hide NewestFirst, Splits, FollowPages, SomeGroupSplit, Matching, Containing;
    MatchingIsContaining(rows, q);
    var s := Containing(rows, q);
    if SomeGroupSplit(s, limit) {
      var b, t := SplitOf(s, limit);
      var orders := SplitShowsTwice(s, limit, b, t);
      assert forall o: nat :: NewestFirst(Matching(rows, q), orders(o));
    } else {
      forall orders: nat -> seq<Row> | forall o: nat :: NewestFirst(Matching(rows, q), orders(o))
        ensures multiset(FollowPages(orders, |Matching(rows, q)|, limit, 0)) == multiset(s)
      {
        SafeFrom(s, orders, limit, 0);
        assert NewestFirst(s, orders(0));
        assert multiset(orders(0)[0..]) == multiset(s) by { WholeOrder(s, orders(0)); }
      }
    }
  }

  lemma SplitOf(s: set<Row>, limit: nat) returns (b: nat, t: int)
    requires limit >= 1 && SomeGroupSplit(s, limit)
    ensures 0 < b < |s| && b % limit == 0 && Splits(s, b, t)
  {
    hide Splits;
    b, t :| 0 < b < |s| && b % limit == 0 && Splits(s, b, t);
  }

  lemma WholeOrder(s: set<Row>, order: seq<Row>)
    requires NewestFirst(s, order)
    ensures multiset(order[0..]) == multiset(s)
  {
    assert order[0..] == order;
  }

  const A := Row("a", 5, "/a")
  const B := Row("b", 5, "/b")

  /** Two traces that started together, one per page: the second page may show the first trace again. */
  lemma TwinsMayRepeat()
    ensures SomeGroupSplit({A, B}, 1)
    ensures exists orders: nat -> seq<Row> :: (forall o: nat :: NewestFirst({A, B}, orders(o)))
              && FollowPages(orders, 2, 1, 0) == [A, A]
  {
    hide FollowPages, NewestFirst, Splits;
    TwinsAreSplit();
    assert 1 % 1 == 0;
    var orders := SwitchAt([A, B], [B, A], 1);
    TwinOrders();
    SwitchedPages([A, B], [B, A], 1, 1, 0);
    assert [A, B][0..1] + [B, A][1..] == [A, A];
    assert forall o: nat :: NewestFirst({A, B}, orders(o));
  }

  lemma TwinsAreSplit()
    ensures |{A, B}| == 2 && Splits({A, B}, 1, 5)
  {
    assert A != B by { assert A.key[0] != B.key[0]; }
    assert After({A, B}, 5) == {} && Since({A, B}, 5) == {A, B};
  }

  lemma TwinOrders()
    ensures NewestFirst({A, B}, [A, B]) && NewestFirst({A, B}, [B, A])
  {
    assert A != B by { assert A.key[0] != B.key[0]; }
    assert multiset([A, B]) == multiset{A, B} && multiset([B, A]) == multiset{A, B}
      && multiset({A, B}) == multiset{A, B};
  }
}
