/** The idle-finalize tick (`finalize.rs`): which traces it finalizes, and how. */
module Finalize {
  import opened Aggregate
  import opened Ledger
  import opened TraceStorage
  import opened Lifecycle

  /** One row of the idle listing. */
  datatype IdleCandidate = IdleCandidate(key: TraceKey, pendingCount: nat, lastBatchAt: int)

  datatype Decision = NotListed | Clean | Force | Defer

  predicate Listed(row: IndexRow, cutoff: int) {
    row.state == Active && row.lastBatchAt < cutoff
  }

  /** The two-cutoff decision over an index row. */
  function Decide(row: IndexRow, now: int, idle: nat, maxPending: nat): Decision {
    if !Listed(row, now - idle) then NotListed
    else if row.pendingCount == 0 then Clean
    else if row.lastBatchAt < now - maxPending then Force
    else Defer
  }

  predicate IsFinal(d: Decision) {
    d == Clean || d == Force
  }

  /** Every active trace past the cap is finalized, pending or not, exactly under the configured
      relation between the two thresholds: with a shorter cap some trace past it is not even listed. */
  lemma CapNeedsIdle(idle: nat, maxPending: nat)
    ensures maxPending >= idle <==>
            forall row: IndexRow, now: int :: row.state == Active && row.lastBatchAt < now - maxPending ==>
              IsFinal(Decide(row, now, idle, maxPending))
  {
    if maxPending < idle {
      var row := NO_ROW.(lastBatchAt := 0);
      assert row.lastBatchAt < idle - maxPending && !IsFinal(Decide(row, idle, idle, maxPending));
    }
  }

  // ---- one trace, seen on its own ----

  datatype View = View(hasRow: bool, row: IndexRow, file: TraceFile, accounts: Accounts, hasRaw: bool, orphaned: bool)

  ghost function ViewAt(s: Disk, k: TraceKey): View {
    View(k in s.index, RowAtKey(s, k), FileAtKey(s, k), AccountsAtKey(s, k), k in s.raw, k in s.orphaned)
  }

  /** A finalize of this trace that got past its per-trace commit. */
  ghost predicate FinalizedView(v: View, v': View, force: bool, fault: Fault, o: FinalizeOutcome) {
    && FinalizedFile(v.file, v.accounts, v'.file, v'.accounts, v.hasRow && fault != IndexCommitFails, o)
    && v'.accounts.stale == (fault == IndexCommitFails)
    && v'.hasRow == v.hasRow && v'.orphaned == v.orphaned
    && v'.row == (if v.hasRow && fault != IndexCommitFails then ClosedRow(v.row, v'.file, o.cpuAvailable) else v.row)
    && v'.hasRaw == (v.hasRaw && !RemovesRaw(force, fault))
  }

  lemma FinalizedToViews(s: Disk, s': Disk, key: TraceKey, force: bool, fault: Fault, o: FinalizeOutcome)
    requires FinalizedTo(s, s', key, force, fault, o)
    ensures FinalizedView(ViewAt(s, key), ViewAt(s', key), force, fault, o)
    ensures forall k :: k != key ==> ViewAt(s', k) == ViewAt(s, k)
  {
    hide FinalizedFile, ClosedRow;
  }

  lemma OpenedViews(s: Disk, key: TraceKey)
    ensures forall k :: ViewAt(Opened(s, key), k) == ViewAt(s, k)
  {
  }

  ghost predicate FinalizedSomehow(v: View, v': View, force: bool, fault: Fault) {
    exists o :: FinalizedView(v, v', force, fault, o)
  }

  /** What one tick does to one trace: nothing unless the decision says to finalize it. */
  ghost predicate Ticked(v: View, v': View, now: int, idle: nat, maxPending: nat, fault: Fault) {
    var decision := Decide(v.row, now, idle, maxPending);
    if v.hasRow && IsFinal(decision) && fault != TraceCommitFails
    then FinalizedSomehow(v, v', decision == Force, fault)
    else v' == v
  }

  function FaultFor(faults: map<TraceKey, Fault>, k: TraceKey): Fault {
    if k in faults then faults[k] else NoFault
  }

  /** Every active trace idle since before the cutoff, in no particular order. */
  ghost predicate IdleListing(index: map<TraceKey, IndexRow>, cutoff: int, cs: seq<IdleCandidate>) {
    && (forall i :: 0 <= i < |cs| ==>
          cs[i].key in index && Listed(index[cs[i].key], cutoff)
          && cs[i] == IdleCandidate(cs[i].key, index[cs[i].key].pendingCount, index[cs[i].key].lastBatchAt))
    && (forall i, j :: 0 <= i < j < |cs| ==> cs[i].key != cs[j].key)
    && (forall k :: k in index && Listed(index[k], cutoff) ==> k in Keys(cs))
  }

  ghost function Keys(cs: seq<IdleCandidate>): set<TraceKey> {
    set i | 0 <= i < |cs| :: cs[i].key
  }

  lemma KeysAppend(cs: seq<IdleCandidate>, c: IdleCandidate)
    ensures Keys(cs + [c]) == Keys(cs) + {c.key}
  {
    var all := cs + [c];
    forall k | k in Keys(cs) + {c.key}
      ensures k in Keys(all)
    {
      if k in Keys(cs) {
        var i :| 0 <= i < |cs| && cs[i].key == k;
        assert all[i].key == k;
      } else {
        assert all[|cs|].key == k;
      }
    }
  }

  method ListIdleActiveTraces(index: map<TraceKey, IndexRow>, cutoff: int) returns (out: seq<IdleCandidate>)
    ensures IdleListing(index, cutoff, out)
  {
    hide Keys;
    out := [];
    assert Keys(out) == {} by { NoKeys(); }
    var todo := index.Keys;
    while todo != {}
      invariant todo <= index.Keys && Keys(out) !! todo
      invariant forall i :: 0 <= i < |out| ==>
        out[i].key in index && out[i].key in Keys(out) && Listed(index[out[i].key], cutoff)
        && out[i] == IdleCandidate(out[i].key, index[out[i].key].pendingCount, index[out[i].key].lastBatchAt)
      invariant forall i, j :: 0 <= i < j < |out| ==> out[i].key != out[j].key
      invariant forall k :: k in index && k !in todo && Listed(index[k], cutoff) ==> k in Keys(out)
      decreases todo
    {
      var k :| k in todo;
      todo := todo - {k};
      if Listed(index[k], cutoff) {
        var c := IdleCandidate(k, index[k].pendingCount, index[k].lastBatchAt);
        KeysAppend(out, c);
        out := out + [c];
      }
    }
  }

  lemma NoKeys()
    ensures Keys([]) == {}
  {
  }

  lemma FreshCandidate(cs: seq<IdleCandidate>, i: nat)
    requires i < |cs| && forall i, j :: 0 <= i < j < |cs| ==> cs[i].key != cs[j].key
    ensures cs[i].key !in Keys(cs[..i]) && Keys(cs[..i + 1]) == Keys(cs[..i]) + {cs[i].key}
  {
    assert cs[..i + 1] == cs[..i] + [cs[i]];
    KeysAppend(cs[..i], cs[i]);
  }

  /** A listed candidate's columns decide for its trace. */
  lemma CandidateDecides(s: Disk, cs: seq<IdleCandidate>, i: nat, now: int, idle: nat, maxPending: nat)
    requires i < |cs| && IdleListing(s.index, now - idle, cs)
    ensures ViewAt(s, cs[i].key).hasRow
    ensures Decide(ViewAt(s, cs[i].key).row, now, idle, maxPending) ==
            if cs[i].pendingCount == 0 then Clean else if cs[i].lastBatchAt < now - maxPending then Force else Defer
  {
  }

  lemma UnlistedIsTicked(s: Disk, cs: seq<IdleCandidate>, k: TraceKey, now: int, idle: nat, maxPending: nat,
                         fault: Fault)
    requires IdleListing(s.index, now - idle, cs) && k !in Keys(cs)
    ensures Ticked(ViewAt(s, k), ViewAt(s, k), now, idle, maxPending, fault)
  {
    hide Keys;
  }

  /** One tick: list, decide per candidate, finalize; one trace's failure does not stop the others. */
  method RunOneTick(storage: Storage, now: int, idle: nat, maxPending: nat, listingFails: bool,
                    faults: map<TraceKey, Fault>)
    requires storage.Valid()
    modifies storage
    ensures storage.Valid()
    ensures listingFails ==> storage.OnDisk() == old(storage.OnDisk())
    ensures !listingFails ==>
              forall k :: Ticked(ViewAt(old(storage.OnDisk()), k), ViewAt(storage.OnDisk(), k), now, idle, maxPending,
                FaultFor(faults, k))
  {
    hide DiskOk, FinalizedTo, FinalizedView, ViewAt, Opened, Keys;
    ghost var s := storage.OnDisk();
    if listingFails {
      return;
    }
    var candidates := ListIdleActiveTraces(storage.index, now - idle);
    assert Keys(candidates[..0]) == {} by { NoKeys(); }
    var i := 0;
    while i < |candidates|
      invariant 0 <= i <= |candidates| && storage.Valid()
      invariant forall k :: k in Keys(candidates[..i]) ==>
        Ticked(ViewAt(s, k), ViewAt(storage.OnDisk(), k), now, idle, maxPending, FaultFor(faults, k))
      invariant forall k :: k !in Keys(candidates[..i]) ==> ViewAt(storage.OnDisk(), k) == ViewAt(s, k)
    {
      var c := candidates[i];
      ghost var before := storage.OnDisk();
      FreshCandidate(candidates, i);
      CandidateDecides(s, candidates, i, now, idle, maxPending);
      if c.pendingCount == 0 || c.lastBatchAt < now - maxPending {
        var force := c.pendingCount != 0;
        var ok, outcome := storage.FinalizeTrace(c.key, force, FaultFor(faults, c.key));
        if FaultFor(faults, c.key) == TraceCommitFails {
          OpenedViews(before, c.key);
        } else {
          FinalizedToViews(before, storage.OnDisk(), c.key, force, FaultFor(faults, c.key), outcome);
        }
      }
      i := i + 1;
    }
    assert candidates[..i] == candidates;
    forall k | k !in Keys(candidates)
      ensures Ticked(ViewAt(s, k), ViewAt(s, k), now, idle, maxPending, FaultFor(faults, k))
    {
      UnlistedIsTicked(s, candidates, k, now, idle, maxPending, FaultFor(faults, k));
    }
  }

  // ---- what a tick means for a trace ----

  /** A tick without faults finalizes every active trace whose last batch is older than the cap, and
      leaves its index row exact in pending and anomaly counts. */
  lemma TickPastCap(v: View, v': View, now: int, idle: nat, maxPending: nat)
    requires Ticked(v, v', now, idle, maxPending, NoFault)
    requires v.hasRow && v.row.state == Active && maxPending >= idle && v.row.lastBatchAt < now - maxPending
    ensures v'.hasRow && v'.row.state == Finalized && v'.file.tables.pending == map[]
    ensures v'.row.pendingCount == 0 && v'.row.anomalyCount == |v'.file.tables.anomalies|
  {
    hide FinalizedFile;
    var o :| FinalizedView(v, v', Decide(v.row, now, idle, maxPending) == Force, NoFault, o);
    FinalizeLeavesNothingParked(v.file, v.accounts, v'.file, v'.accounts, true, o);
  }

  /** A trace whose row counts pending calls is left alone until its last batch is older than the cap. */
  lemma TickDefersPending(v: View, v': View, now: int, idle: nat, maxPending: nat, fault: Fault)
    requires Ticked(v, v', now, idle, maxPending, fault)
    requires v.hasRow && v.row.pendingCount > 0 && maxPending >= idle && v.row.lastBatchAt >= now - maxPending
    ensures v' == v
  {
  }

  /** The tick removes a raw directory exactly on a faultless clean finalize, that is, when the index
      row says active, idle and nothing pending. */
  lemma TickRemovesRawIff(v: View, v': View, now: int, idle: nat, maxPending: nat, fault: Fault)
    requires Ticked(v, v', now, idle, maxPending, fault) && v.hasRaw
    ensures !v'.hasRaw <==>
      v.hasRow && v.row.state == Active && v.row.lastBatchAt < now - idle && v.row.pendingCount == 0 && fault == NoFault
  {
    hide FinalizedFile;
    if v.hasRow && IsFinal(Decide(v.row, now, idle, maxPending)) && fault != TraceCommitFails {
      var o :| FinalizedView(v, v', Decide(v.row, now, idle, maxPending) == Force, fault, o);
    }
  }

  /** Unless the last commit to the file was followed by a lost one to the index, a raw directory removed
      by the tick belonged to a trace with nothing parked, and that finalize wrote no verdict. Commits lost
      before do not matter: the next one that succeeds puts the row back in step. */
  lemma RawRemovedOnlyWhenDrained(v: View, v': View, now: int, idle: nat, maxPending: nat, fault: Fault)
    requires Ticked(v, v', now, idle, maxPending, fault) && v.hasRaw && !v'.hasRaw
    requires v.hasRow && SlotOk(true, v.row, v.file, v.accounts) && !v.accounts.stale
    ensures v.file.tables.pending == map[] && v'.file.tables == v.file.tables
  {
    hide FinalizedFile, Consistent, Balanced;
    TickRemovesRawIff(v, v', now, idle, maxPending, fault);
    var o :| FinalizedView(v, v', Decide(v.row, now, idle, maxPending) == Force, fault, o);
    NothingParkedNothingWritten(v.file, v.accounts, v'.file, v'.accounts, true, o);
  }

  // ---- ticks in a row ----

  /** When a trace is due: idle time for a clean finalize, the cap for one that drops pending calls. */
  function Due(row: IndexRow, idle: nat, maxPending: nat): int {
    row.lastBatchAt + if row.pendingCount == 0 then idle else maxPending
  }

  lemma OneTick(v: View, v': View, now: int, idle: nat, maxPending: nat)
    requires Ticked(v, v', now, idle, maxPending, NoFault) && v.hasRow && maxPending >= idle
    ensures v.row.state == Active && now > Due(v.row, idle, maxPending) ==> v'.hasRow && v'.row.state == Finalized
    ensures v.row.state == Finalized || now <= Due(v.row, idle, maxPending) ==> v' == v
  {
    hide FinalizedFile;
    if v.row.state == Active && now > Due(v.row, idle, maxPending) {
      var o :| FinalizedView(v, v', Decide(v.row, now, idle, maxPending) == Force, NoFault, o);
    }
  }

  /** What a series of ticks does to a trace that gets no batch in between. */
  ghost predicate TickRun(views: seq<View>, nows: seq<int>, idle: nat, maxPending: nat) {
    && |views| == |nows| + 1
    && forall i :: 0 <= i < |nows| ==> Ticked(views[i], views[i + 1], nows[i], idle, maxPending, NoFault)
  }

  /** Over any series of faultless ticks, whatever the clock does, an active trace is finalized if and
      only if one of them came after it was due; until then nothing of it is touched. */
  lemma {:induction false} FinalizedIffDue(views: seq<View>, nows: seq<int>, idle: nat, maxPending: nat)
    requires TickRun(views, nows, idle, maxPending) && maxPending >= idle
    requires views[0].hasRow && views[0].row.state == Active
    ensures var last := views[|nows|];
            && last.hasRow
            && (last.row.state == Finalized <==>
              exists i :: 0 <= i < |nows| && nows[i] > Due(views[0].row, idle, maxPending))
            && (last.row.state == Active ==> last == views[0])
    decreases |nows|
  {
    hide Ticked, Due;
    if nows != [] {
      var k := |nows| - 1;
      FinalizedIffDue(views[..k + 1], nows[..k], idle, maxPending);
      OneTick(views[k], views[k + 1], nows[k], idle, maxPending);
      assert forall i :: 0 <= i < k ==> nows[..k][i] == nows[i];
    }
  }
}
