/** What the columns of a row say, in terms of the fields of the calls it stands for. */
module Figures {
  import opened Wire
  import opened CallTree
  import opened TraceTables

  ghost function SumOf(m: map<nat, Call>, f: Call -> int): int
    decreases |m|
  {
    if m == map[] then 0 else f(m[Some(m)]) + SumOf(m - {Some(m)}, f)
  }

  function UserCpu(c: Call): int {
    c.cpuU
  }

  function SystemCpu(c: Call): int {
    c.cpuS
  }

  /** The time between entry and exit, up to the largest 64-bit value; none for a call whose clock ran backwards. */
  function Elapsed(c: Call): int {
    if c.tOut <= c.tIn then 0
    else if c.tOut - c.tIn > 9223372036854775807 then 9223372036854775807
    else c.tOut - c.tIn
  }

  /** How much memory in use grew from entry to exit; negative if it shrank. */
  function Grown(c: Call): int {
    if c.memOut - c.memIn > 9223372036854775807 then 9223372036854775807
    else if c.memOut - c.memIn < -9223372036854775808 then -9223372036854775808
    else c.memOut - c.memIn
  }

  ghost function Abnormal(m: map<nat, Call>): set<nat> {
    set id | id in m && m[id].abnormalExit
  }

  /** The six columns of a row standing for the calls `m`. */
  ghost predicate Shows(totals: Totals, m: map<nat, Call>) {
    && totals.calls == |m|
    && totals.wall == SumOf(m, Elapsed)
    && totals.cpuU == SumOf(m, UserCpu)
    && totals.cpuS == SumOf(m, SystemCpu)
    && totals.mem == SumOf(m, Grown)
    && totals.abnormal == |Abnormal(m)|
  }

  lemma CallFigures(c: Call)
    ensures Wall(c) == Elapsed(c)
    ensures Delta(c) == Totals(1, Elapsed(c), c.cpuU, c.cpuS, Grown(c), if c.abnormalExit then 1 else 0)
  {
  }

  lemma AbnormalRemove(m: map<nat, Call>, id: nat)
    requires id in m
    ensures |Abnormal(m)| == |Abnormal(m - {id})| + if m[id].abnormalExit then 1 else 0
  {
    if m[id].abnormalExit {
      assert Abnormal(m) == Abnormal(m - {id}) + {id};
    } else {
      assert Abnormal(m) == Abnormal(m - {id});
    }
  }

  lemma {:induction false} TotalFigures(m: map<nat, Call>)
    ensures Shows(Total(m), m)
    decreases |m|
  {
    hide Wall, Delta, Elapsed, Grown, Abnormal;
    if m == map[] {
      assert Abnormal(m) == {} by { NoneAbnormal(); }
    } else {
      var id := Some(m);
      TotalFigures(m - {id});
      CallFigures(m[id]);
      AbnormalRemove(m, id);
    }
  }

  lemma NoneAbnormal()
    ensures Abnormal(map[]) == {}
  {
  }

  /** In every state, every row's counters are these sums over the calls folded into it, and its children
      column is the time of the calls folded one row below. */
  lemma RowFigures(t: Tables, d: map<nat, Call>, n: nat)
    requires Inv(t, d) && n in t.nodes
    ensures Shows(t.nodes[n].totals, NodeCalls(d, t.callToNode, n))
    ensures t.nodes[n].childrenWall == SumOf(ChildCalls(d, t.nodes, t.callToNode, n), Elapsed)
  {
    hide TreeOk, InPlace, Populated, InvertedOnce, Aligned, DepthsOk, Partitioned, NodeCalls, ChildCalls;
    TotalFigures(NodeCalls(d, t.callToNode, n));
    TotalFigures(ChildCalls(d, t.nodes, t.callToNode, n));
  }

  /** The same of the specified tree: over the calls whose context is `p`, and those one level below. */
  lemma TreeFigures(d: map<nat, Call>, known: set<nat>, p: Path)
    requires p in Tree(d, known)
    ensures Shows(Tree(d, known)[p].totals, CallsAt(d, known, p))
    ensures Tree(d, known)[p].childrenWall == SumOf(CallsUnder(d, known, p), Elapsed)
  {
    hide CallsAt, CallsUnder, Paths;
    TotalFigures(CallsAt(d, known, p));
    TotalFigures(CallsUnder(d, known, p));
  }
}
