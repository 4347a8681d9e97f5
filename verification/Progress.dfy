/** The commit protocol does not get stuck: every request is answered after a few steps of its own, and what it
    waits for is always another request of the same trace that can move. */
module Progress {
  import opened BatchFiles
  import opened Ingest

  /** Every taken mutex is taken by a handler that is inside it. */
  ghost predicate HeldFromInside(s: State) {
    forall l :: l in s.owner ==>
      s.owner[l] in s.handlers && InMutex(s.handlers[s.owner[l]].pc) && s.handlers[s.owner[l]].pc.lock == l
  }

  /** A step changes only its own handler, and leaves the mutex exactly when it gives it back. */
  lemma MoverInside(s: State, a: Action)
    requires Enabled(s, a) && ByHandler(a) && !a.Arrive?
    ensures var c, pc' := s.handlers[a.h], NewPc(s, a, s.handlers[a.h]);
            && (a.Acquire? ==> InMutex(pc') && pc'.lock == c.pc.lock)
            && (InMutex(c.pc) ==> (InMutex(pc') && pc'.lock == c.pc.lock) || c.pc.lock !in NewOwner(s, a))
            && forall l :: l in NewOwner(s, a) ==>
              || (a.Acquire? && l == c.pc.lock && NewOwner(s, a)[l] == a.h)
              || (l in s.owner && NewOwner(s, a)[l] == s.owner[l])
  {
    hide NextNumber;
  }

  lemma StepHeld(s: State, a: Action)
    requires HeldFromInside(s) && Enabled(s, a)
    ensures HeldFromInside(Apply(s, a))
  {
    hide Ready, NewPc, NextNumber, NewReserved, NewQueue, NewReceived, NewLocks, NewDirs, NewRenames, NewEpochs,
         InMutex;
    if ByHandler(a) && !a.Arrive? {
      MoverInside(s, a);
    }
  }

  lemma {:induction false} RunHeld(states: seq<State>, actions: seq<Action>, i: nat)
    requires Run(states, actions) && i < |states|
    ensures HeldFromInside(states[i])
  {
    hide HeldFromInside, Apply, Enabled;
    if i == 0 {
      assert HeldFromInside(states[0]) by { NobodyHolds(states[0]); }
    } else {
      RunHeld(states, actions, i - 1);
      StepHeld(states[i - 1], actions[i - 1]);
    }
  }

  lemma NobodyHolds(s: State)
    requires Init(s)
    ensures HeldFromInside(s)
  {
  }

  /** There is always a next number. */
  lemma {:induction false} NextExists(numbers: set<nat>) returns (n: nat)
    ensures NextNumber(numbers, n)
    decreases |numbers|
  {
    if numbers == {} {
      n := 1;
    } else {
      var m :| m in numbers;
      var k := NextExists(numbers - {m});
      n := if m < k then k else m + 1;
      assert forall x :: x in numbers ==> x == m || x in numbers - {m};
    }
  }

  /** A handler that has not answered and is not waiting for the mutex can take a step that is not a failure,
      unless its directory was removed under it, which makes the rename fail. */
  lemma HandlerMoves(s: State, h: nat) returns (a: Action)
    requires h in s.handlers && !s.handlers[h].pc.Done? && !s.handlers[h].pc.HasLock?
    ensures ByHandler(a) && a.h == h && Enabled(s, a)
    ensures a.CommitError? ==> s.handlers[h].pc.Picked? && s.handlers[h].key !in s.dirs
  {
    match s.handlers[h].pc {
      case Parsed => a := TryReserve(h);
      case Reserved => a := LookupLock(h);
      case Missed => a := InsertLock(h);
      case Locked(_) =>
        var n := NextExists(DirOf(s, s.handlers[h].key).Keys);
        a := PickNumber(h, n);
      case Picked(_, _) => a := if s.handlers[h].key in s.dirs then DoRename(h) else CommitError(h);
      case Renamed(_, _) => a := Synced(h);
      case Committed(_) => a := Respond(h);
      case Failed(_) => a := Respond(h);
    }
  }

  /** No deadlock, in any reachable state: a request without an answer can take a step, or waits for the mutex of
      its trace while another request of that trace is inside and can take one. */
  lemma SomeoneMoves(states: seq<State>, actions: seq<Action>, i: nat, h: nat) returns (a: Action)
    requires Run(states, actions) && i < |states|
    requires h in states[i].handlers && !states[i].handlers[h].pc.Done?
    ensures ByHandler(a) && Enabled(states[i], a)
    ensures a.h == h || (a.h in states[i].handlers && states[i].handlers[a.h].key == states[i].handlers[h].key
                         && InMutex(states[i].handlers[a.h].pc) && states[i].handlers[h].pc.HasLock?)
  {
    hide Run, Slots, Exclusive, PickedFree, Numbered, Traced, Outcomes, Submitted;
    RunInv(states, actions, i);
    RunHeld(states, actions, i);
    var s := states[i];
    if s.handlers[h].pc.HasLock? {
      if s.handlers[h].pc.lock !in s.owner {
        a := Acquire(h);
      } else {
        a := HandlerMoves(s, s.owner[s.handlers[h].pc.lock]);
      }
    } else {
      a := HandlerMoves(s, h);
    }
  }

  // ---- few steps each ----

  /** How many steps a handler can still take at most. */
  function StepsLeft(pc: Pc): nat {
    match pc
    case Parsed => 9
    case Reserved => 8
    case Missed => 7
    case HasLock(_) => 6
    case Locked(_) => 5
    case Picked(_, _) => 4
    case Renamed(_, _) => 3
    case Committed(_) => 1
    case Failed(_) => 1
    case Done(_) => 0
  }

  lemma StepsShrink(s: State, a: Action)
    requires Enabled(s, a) && ByHandler(a) && !a.Arrive?
    ensures StepsLeft(NewPc(s, a, s.handlers[a.h])) < StepsLeft(s.handlers[a.h].pc)
  {
    hide NextNumber, DirOf;
  }

  /** Steps the handler took among the first ones, its arrival not counted. */
  function StepsOf(actions: seq<Action>, h: nat): nat {
    if actions == [] then 0 else StepsOf(actions[..|actions| - 1], h) + OwnStep(actions[|actions| - 1], h)
  }

  function OwnStep(a: Action, h: nat): nat {
    if ByHandler(a) && !a.Arrive? && a.h == h then 1 else 0
  }

  lemma StepsAfter(s: State, a: Action, h: nat)
    requires Enabled(s, a)
    ensures h in s.handlers ==> h in Apply(s, a).handlers
    ensures h in Apply(s, a).handlers && h !in s.handlers ==> a.Arrive? && Apply(s, a).handlers[h].pc.Parsed?
    ensures h in s.handlers ==> StepsLeft(Apply(s, a).handlers[h].pc) + OwnStep(a, h) <= StepsLeft(s.handlers[h].pc)
    ensures h !in s.handlers ==> OwnStep(a, h) == 0
  {
    hide Ready, NewPc, NextNumber, NewReserved, NewQueue, NewReceived, NewLocks, NewOwner, NewDirs, NewRenames,
         NewEpochs, StepsLeft;
    if ByHandler(a) && !a.Arrive? {
      StepsShrink(s, a);
    }
  }

  /** In every run each request takes at most nine steps; one that has taken nine is answered. */
  lemma {:induction false} StepsAreFew(states: seq<State>, actions: seq<Action>, i: nat, h: nat)
    requires Run(states, actions) && i < |states|
    ensures h !in states[i].handlers ==> StepsOf(actions[..i], h) == 0
    ensures h in states[i].handlers ==> StepsOf(actions[..i], h) + StepsLeft(states[i].handlers[h].pc) <= 9
    decreases i
  {
    hide Apply, Enabled, StepsLeft, ByHandler;
    if i > 0 {
      StepsAreFew(states, actions, i - 1, h);
      assert actions[..i][..i - 1] == actions[..i - 1] && actions[..i][i - 1] == actions[i - 1];
      StepsAfter(states[i - 1], actions[i - 1], h);
      ParsedSteps();
    }
  }

  lemma ParsedSteps()
    ensures StepsLeft(Parsed) == 9
  {
  }
}
