/** Which dictionary entry a function id ends up with: the first acceptable one offered for it. */
module Names {
  import opened Wire
  import opened TraceTables
  import opened Aggregate

  /** `es[i]` is the first entry for this id whose kind is one of the four. */
  ghost predicate FirstFor(es: seq<DictEntry>, id: nat, i: nat) {
    && i < |es| && es[i].fnId == id && es[i].kind <= 3
    && forall j :: 0 <= j < i && es[j].fnId == id ==> es[j].kind > 3
  }

  /** An id keeps the entry it had; a new one gets the first acceptable entry, unchanged; no other appears. */
  lemma {:induction false} AddEntriesAt(dict: map<nat, DictEntry>, es: seq<DictEntry>, id: nat)
    ensures var r := AddEntries(dict, es);
            if id in dict then id in r && r[id] == dict[id]
            else
              && (id in r <==> exists i: nat :: FirstFor(es, id, i))
              && forall i: nat :: FirstFor(es, id, i) ==> r[id] == es[i]
    decreases |es|
  {
    hide FirstFor;
    if es == [] {
      NoneOffered(id);
    } else {
      AddEntriesAt(AddEntry(dict, es[0]), es[1..], id);
      if es[0].fnId == id && es[0].kind <= 3 {
        HeadIsFirst(es, id);
      } else {
        TailIsFirst(es, id);
      }
    }
  }

  lemma NoneOffered(id: nat)
    ensures forall i: nat :: !FirstFor([], id, i)
  {
  }

  lemma HeadIsFirst(es: seq<DictEntry>, id: nat)
    requires es != [] && es[0].fnId == id && es[0].kind <= 3
    ensures FirstFor(es, id, 0) && forall i: nat :: FirstFor(es, id, i) ==> i == 0
  {
  }

  lemma TailIsFirst(es: seq<DictEntry>, id: nat)
    requires es != [] && !(es[0].fnId == id && es[0].kind <= 3)
    ensures (exists i: nat :: FirstFor(es, id, i)) <==> exists i: nat :: FirstFor(es[1..], id, i)
    ensures forall i: nat :: FirstFor(es, id, i) ==> i > 0 && FirstFor(es[1..], id, i - 1) && es[1..][i - 1] == es[i]
  {
    var rest := es[1..];
    assert forall j :: 0 <= j < |rest| ==> rest[j] == es[j + 1];
    forall i: nat | FirstFor(es, id, i)
      ensures i > 0 && FirstFor(rest, id, i - 1) && rest[i - 1] == es[i]
    {
    }
    if i: nat :| FirstFor(rest, id, i) {
      assert FirstFor(es, id, i + 1);
    }
  }

  lemma {:induction false} AddEntriesAppend(dict: map<nat, DictEntry>, a: seq<DictEntry>, b: seq<DictEntry>)
    ensures AddEntries(dict, a + b) == AddEntries(AddEntries(dict, a), b)
    decreases |a|
  {
    hide AddEntry;
    if a == [] {
      assert a + b == b;
    } else {
      assert (a + b)[1..] == a[1..] + b;
      AddEntriesAppend(AddEntry(dict, a[0]), a[1..], b);
    }
  }

  lemma AddOne(dict: map<nat, DictEntry>, e: DictEntry)
    ensures AddEntries(dict, [e]) == AddEntry(dict, e)
  {
    assert [e][1..] == [];
  }

  /** Seeding touches no id but the root's, and that only when it is new. */
  lemma SeedNames(t: Tables, id: nat)
    ensures id in Seed(t).dict <==> id in t.dict || id == 0
    ensures id in t.dict ==> Seed(t).dict[id] == t.dict[id]
    ensures id == 0 && id !in t.dict ==> Seed(t).dict[id] == DictEntry(0, "<root>", "", 0, 0)
  {
  }

  /** Each batch offers its own entries, then the collector offers the root's. */
  ghost function Offered(batches: seq<Batch>): seq<DictEntry>
    decreases |batches|
  {
    if batches == [] then []
    else Offered(batches[..|batches| - 1]) + batches[|batches| - 1].dict + [DictEntry(0, "<root>", "", 0, 0)]
  }

  /** Recording one more batch takes its offers, in order. */
  lemma OfferedAppend(dict0: map<nat, DictEntry>, batches: seq<Batch>, b: Batch)
    ensures AddEntries(dict0, Offered(batches + [b])) ==
            AddEntry(AddEntries(AddEntries(dict0, Offered(batches)), b.dict), ROOT_ENTRY)
  {
    hide AddEntries, AddEntry, Offered;
    var dict := AddEntries(dict0, Offered(batches));
    OfferedLast(batches, b);
    AddEntriesAppend(dict0, Offered(batches) + b.dict, [ROOT_ENTRY]);
    AddEntriesAppend(dict0, Offered(batches), b.dict);
    AddOne(AddEntries(dict, b.dict), ROOT_ENTRY);
  }

  lemma OfferedLast(batches: seq<Batch>, b: Batch)
    ensures Offered(batches + [b]) == Offered(batches) + b.dict + [ROOT_ENTRY]
  {
    assert (batches + [b])[..|batches|] == batches;
  }
}
