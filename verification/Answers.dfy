/** Which answer a request gets, over every run of the commit protocol: each status has its own cause. */
module Answers {
  import opened Ingest

  /** The step that decides a request's status. */
  ghost predicate Decides(s: State, a: Action, h: nat, status: Status) {
    match status
    case Ok200 => a == Synced(h)
    case BadRequest4xx => a == Reject(h)
    case Backpressure503 => a == TryReserve(h) && |s.queue| + |Holders(s)| == s.capacity
    case TraceFull500 => a.PickNumber? && a.h == h && h in s.handlers && 9999 in DirOf(s, s.handlers[h].key)
    case Internal500 => a == CommitError(h)
  }

  /** That step was among the first `i`. */
  ghost predicate Decided(states: seq<State>, actions: seq<Action>, i: nat, h: nat, status: Status)
    requires |states| == |actions| + 1
  {
    exists j :: 0 <= j < i && j < |actions| && Decides(states[j], actions[j], h, status)
  }

  /** The request is bound to be answered with this status. */
  ghost predicate Bound(s: State, h: nat, status: Status) {
    && h in s.handlers
    && match s.handlers[h].pc
       case Committed(_) => status == Ok200
       case Failed(full) => status == if full then TraceFull500 else Internal500
       case Done(given) => status == given
       case _ => false
  }

  /** The mover's request becomes bound by the deciding step, and by no other. */
  lemma MoverBound(s: State, a: Action, status: Status)
    requires Slots(s) && Capped(s) && Enabled(s, a) && ByHandler(a) && !a.Arrive?
    ensures Bound(Apply(s, a), a.h, status) <==> Bound(s, a.h, status) || Decides(s, a, a.h, status)
  {
    hide NewReserved, NewQueue, NewReceived, NewLocks, NewOwner, NewDirs, NewEpochs, NewRenames, Holders;
    if a.PickNumber? {
      FullMeansCap(s, a);
    }
  }

  lemma FullMeansCap(s: State, a: Action)
    requires Capped(s) && Enabled(s, a) && a.PickNumber?
    ensures a.h in s.handlers && (a.n > 9999 <==> 9999 in DirOf(s, s.handlers[a.h].key))
  {
    hide DirOf;
  }

  lemma OthersBound(s: State, a: Action, h: nat, status: Status)
    requires Enabled(s, a) && !(ByHandler(a) && a.h == h)
    ensures Bound(Apply(s, a), h, status) == Bound(s, h, status) && !Decides(s, a, h, status)
  {
    hide NewPc, Ready, NewReserved, NewQueue, NewReceived, NewLocks, NewOwner, NewDirs, NewEpochs, NewRenames, Holders,
         DirOf;
  }

  lemma StepBound(s: State, a: Action, h: nat, status: Status)
    requires Slots(s) && Capped(s) && Enabled(s, a)
    ensures Bound(Apply(s, a), h, status) <==> Bound(s, h, status) || Decides(s, a, h, status)
  {
    hide Slots, Apply, Ready, Decides, Bound;
    if ByHandler(a) && a.h == h {
      if a.Arrive? {
        ArrivalBound(s, a, status);
      } else {
        MoverBound(s, a, status);
      }
    } else {
      OthersBound(s, a, h, status);
    }
  }

  lemma ArrivalBound(s: State, a: Action, status: Status)
    requires Enabled(s, a) && a.Arrive?
    ensures !Bound(Apply(s, a), a.h, status) && !Bound(s, a.h, status) && !Decides(s, a, a.h, status)
  {
    hide NewReserved, NewQueue, NewReceived, NewLocks, NewOwner, NewDirs, NewEpochs, NewRenames;
  }

  lemma StepCapped(s: State, a: Action)
    requires PickedFree(s) && Capped(s) && Enabled(s, a)
    ensures Capped(Apply(s, a))
  {
    hide Enabled, Apply, DirOf;
    forall k, m | m in DirOf(Apply(s, a), k)
      ensures m <= 9999
    {
      DirAfter(s, a, k, m);
      if a.DoRename? && m !in DirOf(s, k) {
        RenamedIsCapped(s, a);
      }
    }
  }

  lemma RenamedIsCapped(s: State, a: Action)
    requires PickedFree(s) && Enabled(s, a) && a.DoRename?
    ensures a.h in s.handlers && s.handlers[a.h].pc.Picked? && s.handlers[a.h].pc.n <= 9999
  {
  }

  lemma {:induction false} RunBound(states: seq<State>, actions: seq<Action>, i: nat, h: nat, status: Status)
    requires Run(states, actions) && i < |states|
    ensures Capped(states[i])
    ensures Bound(states[i], h, status) <==> Decided(states, actions, i, h, status)
    decreases i
  {
    hide Capped, Apply, Enabled, Bound, Decides, Slots, PickedFree, OneLockPerKey, Exclusive, Numbered, Traced,
      Outcomes,
         Submitted;
    if i == 0 {
      assert !Bound(states[0], h, status) by { NobodyBound(states[0], h, status); }
    } else {
      RunBound(states, actions, i - 1, h, status);
      RunInv(states, actions, i - 1);
      StepCapped(states[i - 1], actions[i - 1]);
      StepBound(states[i - 1], actions[i - 1], h, status);
    }
  }

  lemma NobodyBound(s: State, h: nat, status: Status)
    requires Init(s)
    ensures !Bound(s, h, status)
  {
  }

  /** In every run, a request that has been answered was answered 503 if and only if every slot was taken when it
      asked for one, 4xx if and only if it was rejected, trace-full if and only if number 9999 was in its
      directory when it picked, with an internal error if and only if an I/O step failed, and 200 if and only if
      its file was synced. */
  lemma AnswersHaveCauses(states: seq<State>, actions: seq<Action>, i: nat, h: nat)
    requires Run(states, actions) && i < |states| && h in states[i].handlers && states[i].handlers[h].pc.Done?
    ensures |states| == |actions| + 1
    ensures forall status :: states[i].handlers[h].pc.status == status <==> Decided(states, actions, i, h, status)
  {
    assert |states| == |actions| + 1;
    hide Decided, Run;
    forall status: Status
      ensures states[i].handlers[h].pc.status == status <==> Decided(states, actions, i, h, status)
    {
      RunBound(states, actions, i, h, status);
    }
  }
}
