/** Sequences of batches: reordering, re-splitting and repeating them does not matter. */
module Deliveries {
  import opened Wire
  import opened CallTree
  import opened TraceTables
  import opened Refinement
  import opened Aggregate

  /** First-wins delivery over a whole history of batches. */
  ghost function DeliverAll(d: map<nat, Call>, batches: seq<Batch>): map<nat, Call>
    decreases |batches|
  {
    if batches == [] then d else DeliverAll(Deliver(d, batches[0].calls), batches[1..])
  }

  ghost function CallSet(calls: seq<Call>): set<Call> {
    set i | 0 <= i < |calls| :: calls[i]
  }

  /** The set of calls a history delivers, however they are cut into batches. */
  ghost function AllCalls(batches: seq<Batch>): set<Call>
    decreases |batches|
  {
    if batches == [] then {} else CallSet(batches[0].calls) + AllCalls(batches[1..])
  }

  /** Functions a history's dictionary entries introduce; the root's is always known. */
  ghost function Entries(entries: seq<DictEntry>): set<nat> {
    set i | 0 <= i < |entries| && entries[i].kind <= 3 :: entries[i].fnId
  }

  ghost function AllFns(batches: seq<Batch>): set<nat>
    decreases |batches|
  {
    if batches == [] then {0} else Entries(batches[0].dict) + AllFns(batches[1..])
  }

  /** A call id stands for one call: what the wire format promises per trace. */
  ghost predicate OnePayload(calls: set<Call>) {
    forall a, b :: a in calls && b in calls && a.callId == b.callId ==> a == b
  }

  /** `d` records exactly the calls in `calls`, by id. */
  ghost predicate Records(d: map<nat, Call>, calls: set<Call>) {
    && (forall id :: id in d ==> d[id] in calls && d[id].callId == id)
    && (forall c :: c in calls ==> c.callId in d)
  }

  lemma RecordsUnique(d1: map<nat, Call>, d2: map<nat, Call>, calls: set<Call>)
    requires OnePayload(calls) && Records(d1, calls) && Records(d2, calls)
    ensures d1 == d2
  {
    forall id
      ensures id in d1 <==> id in d2
    {
      assert id in d1 ==> d1[id] in calls;
      assert id in d2 ==> d2[id] in calls;
    }
    forall id | id in d1
      ensures d1[id] == d2[id]
    {
    }
  }

  lemma {:induction false} DeliverRecords(d: map<nat, Call>, calls: seq<Call>, s: set<Call>)
    requires Records(d, s)
    ensures Records(Deliver(d, calls), s + CallSet(calls))
    decreases |calls|
  {
    if calls == [] {
      assert s + CallSet(calls) == s;
    } else {
      var last, init := calls[|calls| - 1], calls[..|calls| - 1];
      assert Records(Deliver1(d, last), s + {last});
      DeliverRecords(Deliver1(d, last), init, s + {last});
      CallSetAppend(init, last);
      assert init + [last] == calls;
      assert s + {last} + CallSet(init) == s + CallSet(calls);
    }
  }

  lemma CallSetAppend(calls: seq<Call>, c: Call)
    ensures CallSet(calls + [c]) == CallSet(calls) + {c}
  {
    var all := calls + [c];
    forall x | x in CallSet(calls) + {c}
      ensures x in CallSet(all)
    {
      if x in CallSet(calls) {
        var i :| 0 <= i < |calls| && calls[i] == x;
        assert all[i] == x;
      } else {
        assert all[|calls|] == c;
      }
    }
  }

  lemma {:induction false} DeliverAllRecords(d: map<nat, Call>, batches: seq<Batch>, s: set<Call>)
    requires Records(d, s)
    ensures Records(DeliverAll(d, batches), s + AllCalls(batches))
    decreases |batches|
  {
    if batches == [] {
      assert s + AllCalls(batches) == s;
    } else {
      DeliverRecords(d, batches[0].calls, s);
      DeliverAllRecords(Deliver(d, batches[0].calls), batches[1..], s + CallSet(batches[0].calls));
      assert s + CallSet(batches[0].calls) + AllCalls(batches[1..]) == s + AllCalls(batches);
    }
  }

  /** What a history delivers depends only on its set of calls. */
  lemma DeliveryIsASet(b1: seq<Batch>, b2: seq<Batch>)
    requires AllCalls(b1) == AllCalls(b2) && OnePayload(AllCalls(b1))
    ensures DeliverAll(map[], b1) == DeliverAll(map[], b2)
  {
    hide OnePayload, Records, AllCalls;
    assert Records(map[], {}) by { NothingRecorded(); }
    DeliverAllRecords(map[], b1, {});
    DeliverAllRecords(map[], b2, {});
    assert {} + AllCalls(b1) == AllCalls(b1);
    RecordsUnique(DeliverAll(map[], b1), DeliverAll(map[], b2), AllCalls(b1));
  }

  lemma NothingRecorded()
    ensures Records(map[], {})
  {
  }

  /** A trace that has recorded the history `batches` and nothing else. */
  ghost predicate Recorded(t: Tables, batches: seq<Batch>) {
    Settled(t, DeliverAll(map[], batches)) && t.dict.Keys == AllFns(batches)
  }

  /** Two histories that reorder, re-split or repeat batches but deliver the same calls and introduce
      the same functions leave traces that differ in row ids only. */
  lemma OrderIndependence(t1: Tables, b1: seq<Batch>, t2: Tables, b2: seq<Batch>)
    requires Recorded(t1, b1) && Recorded(t2, b2)
    requires AllCalls(b1) == AllCalls(b2) && OnePayload(AllCalls(b1)) && AllFns(b1) == AllFns(b2)
    ensures ByPath(t1) == ByPath(t2)
    ensures t1.callToNode.Keys == t2.callToNode.Keys && t1.pending == t2.pending
    ensures Inversions(t1) == Inversions(t2)
    ensures DeliverAll(map[], b1) == DeliverAll(map[], b2)
  {
    hide Quiescent, Partitioned, InPlace, Summed, Populated, InvertedOnce, Aligned, DepthsOk, Shape, UniqueKeys,
         OnePayload, ByPath, Inversions;
    DeliveryIsASet(b1, b2);
    SameDeliveriesSameTrace(t1, t2, DeliverAll(map[], b1));
  }

  /** Redelivering calls already known delivers nothing. */
  lemma {:induction false} RedeliveryDeliversNothing(d: map<nat, Call>, calls: seq<Call>)
    requires forall i :: 0 <= i < |calls| ==> calls[i].callId in d
    ensures Deliver(d, calls) == d
    decreases |calls|
  {
    if calls != [] {
      RedeliveryDeliversNothing(d, calls[..|calls| - 1]);
    }
  }

  lemma {:induction false} DeliverKeeps(d: map<nat, Call>, calls: seq<Call>)
    ensures forall id :: id in d ==> id in Deliver(d, calls) && Deliver(d, calls)[id] == d[id]
    ensures forall i :: 0 <= i < |calls| ==> calls[i].callId in Deliver(d, calls)
    decreases |calls|
  {
    if calls != [] {
      var last, init := calls[|calls| - 1], calls[..|calls| - 1];
      DeliverKeeps(Deliver1(d, last), init);
      forall i | 0 <= i < |calls|
        ensures calls[i].callId in Deliver(d, calls)
      {
        assert i < |init| ==> init[i] == calls[i];
      }
    }
  }

  /** Recording the same batch again, right away or later, adds nothing to either index counter and
      reports every call as skipped. */
  lemma RedeliveryAddsNothing(t: Tables, d0: map<nat, Call>, batch: Batch, between: seq<Batch>, t': Tables, o: Outcome)
    requires var d := DeliverAll(Deliver(d0, batch.calls), between);
             Reported(t, d, t', Deliver(d, batch.calls), |batch.calls|, o)
    ensures o.callCountDelta == 0 && o.totalWallDelta == 0 && o.redeliveredSkipped == |batch.calls|
  {
    var d1 := Deliver(d0, batch.calls);
    DeliverKeeps(d0, batch.calls);
    DeliverAllKeeps(d1, between);
    RedeliveryDeliversNothing(DeliverAll(d1, between), batch.calls);
  }

  lemma {:induction false} DeliverAllKeeps(d: map<nat, Call>, batches: seq<Batch>)
    ensures forall id :: id in d ==> id in DeliverAll(d, batches) && DeliverAll(d, batches)[id] == d[id]
    decreases |batches|
  {
    if batches != [] {
      DeliverKeeps(d, batches[0].calls);
      DeliverAllKeeps(Deliver(d, batches[0].calls), batches[1..]);
    }
  }

  // ---- what a batch adds, read off the batch ----

  /** The loop, coming from the end, has seen call `i`'s id before: it is known, or later in the array. */
  ghost predicate SeenBefore(d: map<nat, Call>, calls: seq<Call>, i: nat)
    requires i < |calls|
  {
    calls[i].callId in d || calls[i].callId in Ids(calls[i + 1..])
  }

  /** No call of the batch is new. */
  ghost predicate AllKnown(d: map<nat, Call>, calls: seq<Call>) {
    forall i :: 0 <= i < |calls| ==> calls[i].callId in d
  }

  /** No new call of the batch took any time. */
  ghost predicate NoNewWall(d: map<nat, Call>, calls: seq<Call>) {
    forall i :: 0 <= i < |calls| ==> SeenBefore(d, calls, i) || Wall(calls[i]) == 0
  }

  lemma SizeOfSubset(d: map<nat, Call>, d': map<nat, Call>)
    requires d.Keys <= d'.Keys
    ensures |d| <= |d'| && (|d| == |d'| ==> d.Keys == d'.Keys)
  {
    var rest := d'.Keys - d.Keys;
    assert d'.Keys == d.Keys + rest;
    assert |d'| == |d'.Keys| == |d.Keys| + |rest| && |d.Keys| == |d|;
  }

  lemma AddsNoCallIff(d: map<nat, Call>, calls: seq<Call>)
    ensures |Deliver(d, calls)| >= |d|
    ensures |Deliver(d, calls)| == |d| <==> AllKnown(d, calls)
  {
    hide Deliver;
    DeliverKeeps(d, calls);
    SizeOfSubset(d, Deliver(d, calls));
    if AllKnown(d, calls) {
      RedeliveryDeliversNothing(d, calls);
    }
  }

  lemma SeenStep(d: map<nat, Call>, calls: seq<Call>, i: nat)
    requires i < |calls| - 1
    ensures var last, init := calls[|calls| - 1], calls[..|calls| - 1];
            SeenBefore(Deliver1(d, last), init, i) <==> SeenBefore(d, calls, i)
  {
    var last, init := calls[|calls| - 1], calls[..|calls| - 1];
    assert calls[i + 1..] == init[i + 1..] + [last];
    IdsAppend(init[i + 1..], last);
  }

  lemma IdsAppend(calls: seq<Call>, c: Call)
    ensures Ids(calls + [c]) == Ids(calls) + {c.callId}
  {
    var all := calls + [c];
    forall id | id in Ids(calls) + {c.callId}
      ensures id in Ids(all)
    {
      if id in Ids(calls) {
        var i :| 0 <= i < |calls| && calls[i].callId == id;
        assert all[i] == calls[i];
      } else {
        assert all[|calls|] == c;
      }
    }
  }

  lemma NoNewWallStep(d: map<nat, Call>, calls: seq<Call>)
    requires calls != []
    ensures var last, init := calls[|calls| - 1], calls[..|calls| - 1];
            NoNewWall(d, calls) <==> NoNewWall(Deliver1(d, last), init) && (last.callId in d || Wall(last) == 0)
  {
    hide Deliver1, SeenBefore, Wall;
    var n := |calls| - 1;
    var last, init := calls[n], calls[..n];
    forall i | 0 <= i < n
      ensures SeenBefore(Deliver1(d, last), init, i) <==> SeenBefore(d, calls, i)
    {
      SeenStep(d, calls, i);
    }
    assert SeenBefore(d, calls, n) <==> last.callId in d by { LastSeen(d, calls); }
  }

  lemma LastSeen(d: map<nat, Call>, calls: seq<Call>)
    requires calls != []
    ensures SeenBefore(d, calls, |calls| - 1) <==> calls[|calls| - 1].callId in d
  {
    assert calls[|calls|..] == [];
  }

  lemma {:induction false} AddsNoWallIff(d: map<nat, Call>, calls: seq<Call>)
    ensures Total(Deliver(d, calls)).wall >= Total(d).wall
    ensures Total(Deliver(d, calls)).wall == Total(d).wall <==> NoNewWall(d, calls)
    decreases |calls|
  {
    hide NoNewWall, Total, Wall;
    if calls == [] {
      assert NoNewWall(d, calls) by { NothingNew(d); }
    } else {
      var last, init := calls[|calls| - 1], calls[..|calls| - 1];
      AddsNoWallIff(Deliver1(d, last), init);
      NoNewWallStep(d, calls);
      if last.callId !in d {
        TotalInsert(d, last.callId, last);
      }
    }
  }

  lemma NothingNew(d: map<nat, Call>)
    ensures NoNewWall(d, [])
  {
  }
}
