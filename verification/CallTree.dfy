/** What the aggregator has to compute, stated without it: the calling-context tree of a set of
    delivered calls. Nothing here mentions node ids, parking, batches or arrival order. */
module CallTree {
  import opened Wire

  /** A calling context: the functions from the synthetic root down to a call. */
  datatype Path = Top | Under(up: Path, fnId: nat) {
    function Length(): nat {
      match this
      case Top => 0
      case Under(p, _) => p.Length() + 1
    }
  }

  /** `p` is the calling context of call `id`: every call on the way up was delivered, has a known
      function, and the topmost one has no parent. */
  ghost predicate HasPath(d: map<nat, Call>, known: set<nat>, id: nat, p: Path)
    decreases p
  {
    match p
    case Top => false
    case Under(up, fn) =>
      id in d && fn in known && d[id].fnId == fn &&
      if d[id].parent == 0 then up == Top else HasPath(d, known, d[id].parent, up)
  }

  ghost predicate Grounded(d: map<nat, Call>, known: set<nat>, id: nat) {
    exists p :: HasPath(d, known, id, p)
  }

  ghost function GroundedIds(d: map<nat, Call>, known: set<nat>): set<nat> {
    set id | id in d && Grounded(d, known, id)
  }

  ghost function PathOf(d: map<nat, Call>, known: set<nat>, id: nat): (p: Path)
    requires Grounded(d, known, id)
    ensures HasPath(d, known, id, p) && p.Under?
  {
    var p :| HasPath(d, known, id, p); p
  }

  lemma {:induction false} PathUnique(d: map<nat, Call>, known: set<nat>, id: nat, p: Path, q: Path)
    requires HasPath(d, known, id, p) && HasPath(d, known, id, q)
    ensures p == q
    decreases p
  {
    if d[id].parent != 0 {
      PathUnique(d, known, d[id].parent, p.up, q.up);
    }
  }

  /** `s` is closed under "known function, parent absent or in `s`". */
  ghost predicate Closed(d: map<nat, Call>, known: set<nat>, s: set<nat>) {
    forall id :: id in d && d[id].fnId in known && (d[id].parent == 0 || d[id].parent in s) ==> id in s
  }

  lemma {:induction false} ClosedContains(d: map<nat, Call>, known: set<nat>, s: set<nat>, id: nat, p: Path)
    requires Closed(d, known, s) && HasPath(d, known, id, p)
    ensures id in s
    decreases p
  {
    if d[id].parent != 0 {
      ClosedContains(d, known, s, d[id].parent, p.up);
    }
  }

  /** The calls that have a context are the least set closed under "known function, and no parent
      or a parent in the set". */
  lemma GroundedIsLeastFixpoint(d: map<nat, Call>, known: set<nat>)
    ensures Closed(d, known, GroundedIds(d, known))
    ensures forall s :: Closed(d, known, s) ==> GroundedIds(d, known) <= s
  {
    var g := GroundedIds(d, known);
    forall id | id in d && d[id].fnId in known && (d[id].parent == 0 || d[id].parent in g)
      ensures id in g
    {
      var up := if d[id].parent == 0 then Top else PathOf(d, known, d[id].parent);
      assert HasPath(d, known, id, Under(up, d[id].fnId));
    }
    forall s, id | Closed(d, known, s) && id in g
      ensures id in s
    {
      ClosedContains(d, known, s, id, PathOf(d, known, id));
    }
  }

  // ---- sums over sets of calls ----

  ghost function Some(m: map<nat, Call>): (id: nat)
    requires m != map[]
    ensures id in m
  {
    var id :| id in m; id
  }

  ghost function Total(m: map<nat, Call>): Totals
    decreases |m|
  {
    if m == map[] then ZERO else Delta(m[Some(m)]).Plus(Total(m - {Some(m)}))
  }

  lemma {:induction false} TotalRemove(m: map<nat, Call>, id: nat)
    requires id in m
    ensures Total(m) == Delta(m[id]).Plus(Total(m - {id}))
    decreases |m|
  {
    var first := Some(m);
    if first != id {
      TotalRemove(m - {first}, id);
      TotalRemove(m - {id}, first);
      assert m - {first} - {id} == m - {id} - {first};
    }
  }

  lemma TotalInsert(m: map<nat, Call>, id: nat, c: Call)
    requires id !in m
    ensures Total(m[id := c]) == Delta(c).Plus(Total(m))
  {
    TotalRemove(m[id := c], id);
    assert m[id := c] - {id} == m;
  }

  lemma PlusZero(t: Totals)
    ensures t.Plus(ZERO) == t
  {
  }

  lemma PlusCommutes(t: Totals, u: Totals)
    ensures t.Plus(u) == u.Plus(t)
  {
  }

  lemma PlusSwaps(t: Totals, u: Totals, v: Totals)
    ensures t.Plus(u.Plus(v)) == u.Plus(t.Plus(v))
  {
  }

  /** `m` is the disjoint union of `a` and `b`. */
  ghost predicate Splits(m: map<nat, Call>, a: map<nat, Call>, b: map<nat, Call>) {
    && m.Keys == a.Keys + b.Keys
    && a.Keys !! b.Keys
    && (forall id :: id in a ==> m[id] == a[id])
    && (forall id :: id in b ==> m[id] == b[id])
  }

  lemma SplitsRemove(m: map<nat, Call>, a: map<nat, Call>, b: map<nat, Call>, id: nat)
    requires Splits(m, a, b) && id in b
    ensures Splits(m - {id}, a, b - {id})
    ensures Total(m - {id}) == Total(a).Plus(Total(b - {id})) ==> Total(m) == Total(a).Plus(Total(b))
  {
    TotalRemove(m, id);
    TotalRemove(b, id);
    PlusSwaps(Delta(m[id]), Total(a), Total(b - {id}));
  }

  lemma {:induction false} TotalSplit(m: map<nat, Call>, a: map<nat, Call>, b: map<nat, Call>)
    requires Splits(m, a, b)
    ensures Total(m) == Total(a).Plus(Total(b))
    decreases |b|
  {
    if b == map[] {
      assert m == a;
      PlusZero(Total(a));
    } else {
      var id :| id in b;
      SplitsRemove(m, a, b, id);
      TotalSplit(m - {id}, a, b - {id});
    }
  }

  lemma {:induction false} TotalCounts(m: map<nat, Call>)
    ensures Total(m).calls == |m| && Total(m).wall >= 0
    decreases |m|
  {
    if m != map[] {
      var id := Some(m);
      TotalCounts(m - {id});
    }
  }

  // ---- the tree ----

  /** The delivered calls whose context is `p`. */
  ghost function CallsAt(d: map<nat, Call>, known: set<nat>, p: Path): map<nat, Call> {
    map id | id in d && HasPath(d, known, id, p) :: d[id]
  }

  /** The delivered calls one level below `p`. */
  ghost function CallsUnder(d: map<nat, Call>, known: set<nat>, p: Path): map<nat, Call> {
    map id | id in d && Grounded(d, known, id) && PathOf(d, known, id).up == p :: d[id]
  }

  datatype TreeRow = TreeRow(totals: Totals, childrenWall: int)

  ghost function RowAt(d: map<nat, Call>, known: set<nat>, p: Path): TreeRow {
    TreeRow(Total(CallsAt(d, known, p)), Total(CallsUnder(d, known, p)).wall)
  }

  /** The delivered calls without a context: an unknown function or a missing ancestor. */
  ghost function Parked(d: map<nat, Call>, known: set<nat>): set<nat> {
    d.Keys - GroundedIds(d, known)
  }

  ghost function Paths(d: map<nat, Call>, known: set<nat>): set<Path> {
    {Top} + set id | id in GroundedIds(d, known) :: PathOf(d, known, id)
  }

  /** One row for the root and one per distinct context; every column is a sum over the calls there. */
  ghost function Tree(d: map<nat, Call>, known: set<nat>): map<Path, TreeRow> {
    map p | p in Paths(d, known) :: RowAt(d, known, p)
  }
}
