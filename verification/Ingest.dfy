/** The ingest commit protocol (`http/ingest.rs`, `http/mod.rs`, `http/storage.rs`): concurrent
    handlers reserve a queue slot, lock their trace, pick a number, rename, sync, send. Every step is
    atomic, any interleaving is a run. The decoder and the finalizer's raw removal are steps too. */
module Ingest {
  import opened Digits
  import opened BatchFiles

  datatype Key = Key(digest: string)

  datatype Status = Ok200 | BadRequest4xx | Backpressure503 | TraceFull500 | Internal500

  /** Where a request is. `lock` is the mutex obtained from `lock_for`, `n` the picked number. */
  datatype Pc =
    | Parsed                       // meta decoded, nothing reserved
    | Reserved                     // holds a queue permit
    | Missed                       // read lookup of the lock map found nothing
    | HasLock(lock: nat)           // holds the mutex handle, not the mutex
    | Locked(lock: nat)            // inside the mutex
    | Picked(lock: nat, n: nat)    // directory ensured, number chosen
    | Renamed(lock: nat, n: nat)   // file in place, sync pending
    | Committed(n: nat)            // mutex released, about to send
    | Failed(full: bool)           // mutex released without success, permit still held
    | Done(status: Status)

  datatype Handler = Handler(key: Key, pc: Pc)

  /** A queued submission: the path is the key's raw directory and the number. */
  datatype Submission = Submission(key: Key, n: nat, handler: nat)

  /** One rename that happened; `epoch` counts removals of the directory before it. */
  datatype Rename = Rename(key: Key, epoch: nat, n: nat, handler: nat)

  datatype State = State(
    capacity: nat,
    reserved: nat,
    queue: seq<Submission>,
    received: seq<Submission>,
    handlers: map<nat, Handler>,
    locks: map<Key, nat>,
    nextLock: nat,
    owner: map<nat, nat>,
    dirs: map<Key, map<nat, nat>>,
    epochs: map<Key, nat>,
    renames: seq<Rename>)

  datatype Action =
    | Arrive(h: nat, key: Key)
    | Reject(h: nat)
    | TryReserve(h: nat)
    | LookupLock(h: nat)
    | InsertLock(h: nat)
    | Acquire(h: nat)
    | PickNumber(h: nat, n: nat)
    | CommitError(h: nat)          // any I/O failure inside the mutex
    | DoRename(h: nat)
    | Synced(h: nat)
    | Respond(h: nat)
    | Receive
    | RemoveRaw(key: Key)          // a clean finalize or the retention sweeper, outside the mutex

  function EpochOf(s: State, k: Key): nat {
    if k in s.epochs then s.epochs[k] else 0
  }

  function DirOf(s: State, k: Key): map<nat, nat> {
    if k in s.dirs then s.dirs[k] else map[]
  }

  predicate ByHandler(a: Action) {
    !a.Receive? && !a.RemoveRaw?
  }

  /** Whether the action can happen now. */
  ghost predicate Enabled(s: State, a: Action) {
    if a.Arrive? then a.h !in s.handlers
    else if ByHandler(a) then a.h in s.handlers && Ready(s, a, s.handlers[a.h])
    else a.Receive? ==> s.queue != []
  }

  ghost predicate Ready(s: State, a: Action, c: Handler)
    requires ByHandler(a) && !a.Arrive?
  {
    match a
    case Reject(_) => c.pc.Parsed?
    case TryReserve(_) => c.pc.Parsed?
    case LookupLock(_) => c.pc.Reserved?
    case InsertLock(_) => c.pc.Missed?
    case Acquire(_) => c.pc.HasLock? && c.pc.lock !in s.owner
    case PickNumber(_, n) => c.pc.Locked? && NextNumber(DirOf(s, c.key).Keys, n)
    case CommitError(_) => c.pc.Locked? || c.pc.Picked? || c.pc.Renamed?
    case DoRename(_) => c.pc.Picked? && c.key in s.dirs
    case Synced(_) => c.pc.Renamed?
    case Respond(_) => c.pc.Committed? || c.pc.Failed?
  }

  /** Where the acting handler goes. */
  ghost function NewPc(s: State, a: Action, c: Handler): Pc
    requires ByHandler(a) && !a.Arrive? && Ready(s, a, c)
  {
    match a
    case Reject(_) => Done(BadRequest4xx)
    case TryReserve(_) => if |s.queue| + s.reserved < s.capacity then Reserved else Done(Backpressure503)
    case LookupLock(_) => if c.key in s.locks then HasLock(s.locks[c.key]) else Missed
    case InsertLock(_) => HasLock(if c.key in s.locks then s.locks[c.key] else s.nextLock)
    case Acquire(_) => Locked(c.pc.lock)
    case PickNumber(_, n) => if n > BATCH_MAX then Failed(true) else Picked(c.pc.lock, n)
    case CommitError(_) => Failed(false)
    case DoRename(_) => Renamed(c.pc.lock, c.pc.n)
    case Synced(_) => Committed(c.pc.n)
    case Respond(_) => if c.pc.Committed? then Done(Ok200) else Done(if c.pc.full then TraceFull500 else Internal500)
  }

  ghost function NewHandlers(s: State, a: Action): map<nat, Handler>
    requires Enabled(s, a)
  {
    if a.Arrive? then s.handlers[a.h := Handler(a.key, Parsed)]
    else if ByHandler(a) then s.handlers[a.h := Handler(s.handlers[a.h].key, NewPc(s, a, s.handlers[a.h]))]
    else s.handlers
  }

  /** A permit is taken by a successful reservation and given back with the response. */
  ghost function NewReserved(s: State, a: Action): nat {
    if a.TryReserve? && |s.queue| + s.reserved < s.capacity then s.reserved + 1
    else if a.Respond? && s.reserved > 0 then s.reserved - 1
    else s.reserved
  }

  /** A committed handler sends its submission as it responds; the decoder takes from the front. */
  ghost function NewQueue(s: State, a: Action): seq<Submission>
    requires Enabled(s, a)
  {
    if a.Respond? && s.handlers[a.h].pc.Committed? then
      s.queue + [Submission(s.handlers[a.h].key, s.handlers[a.h].pc.n, a.h)]
    else if a.Receive? then s.queue[1..]
    else s.queue
  }

  ghost function NewReceived(s: State, a: Action): seq<Submission>
    requires Enabled(s, a)
  {
    if a.Receive? then s.received + [s.queue[0]] else s.received
  }

  /** `entry().or_insert_with` under the write lock. */
  ghost function NewLocks(s: State, a: Action): map<Key, nat>
    requires Enabled(s, a)
  {
    if a.InsertLock? && s.handlers[a.h].key !in s.locks then s.locks[s.handlers[a.h].key := s.nextLock] else s.locks
  }

  ghost function NewNextLock(s: State, a: Action): nat
    requires Enabled(s, a)
  {
    if a.InsertLock? && s.handlers[a.h].key !in s.locks then s.nextLock + 1 else s.nextLock
  }

  /** The mutex guard lives until the commit attempt is over. */
  ghost function NewOwner(s: State, a: Action): map<nat, nat>
    requires Enabled(s, a)
  {
    if a.Acquire? then s.owner[s.handlers[a.h].pc.lock := a.h]
    else if a.Synced? || a.CommitError? || (a.PickNumber? && a.n > BATCH_MAX) then s.owner - {s.handlers[a.h].pc.lock}
    else s.owner
  }

  /** Picking a number ensures the directory exists; a rename replaces whatever has that name. */
  ghost function NewDirs(s: State, a: Action): map<Key, map<nat, nat>>
    requires Enabled(s, a)
  {
    if a.PickNumber? then s.dirs[s.handlers[a.h].key := DirOf(s, s.handlers[a.h].key)]
    else if a.DoRename? then
      var dir: map<nat, nat> := DirOf(s, s.handlers[a.h].key)[s.handlers[a.h].pc.n := a.h];
      s.dirs[s.handlers[a.h].key := dir]
    else if a.RemoveRaw? then s.dirs - {a.key}
    else s.dirs
  }

  ghost function NewEpochs(s: State, a: Action): map<Key, nat> {
    if a.RemoveRaw? then s.epochs[a.key := EpochOf(s, a.key) + 1] else s.epochs
  }

  ghost function NewRenames(s: State, a: Action): seq<Rename>
    requires Enabled(s, a)
  {
    if a.DoRename? then
      s.renames + [Rename(s.handlers[a.h].key, EpochOf(s, s.handlers[a.h].key), s.handlers[a.h].pc.n, a.h)]
    else s.renames
  }

  ghost function Apply(s: State, a: Action): State
    requires Enabled(s, a)
  {
    State(s.capacity, NewReserved(s, a), NewQueue(s, a), NewReceived(s, a), NewHandlers(s, a), NewLocks(s, a),
          NewNextLock(s, a), NewOwner(s, a), NewDirs(s, a), NewEpochs(s, a), NewRenames(s, a))
  }

  /** Numbers are read off file names, and those stop at 9999. */
  ghost predicate Capped(s: State) {
    forall k, m :: m in DirOf(s, k) ==> m <= 9999
  }

  /** The server just started: any directories may be left from before. */
  ghost predicate Init(s: State) {
    && Capped(s)
    && s.reserved == 0 && s.queue == [] && s.received == [] && s.handlers == map[]
    && s.locks == map[] && s.owner == map[] && s.renames == [] && s.epochs == map[]
  }

  ghost predicate Run(states: seq<State>, actions: seq<Action>) {
    && |states| == |actions| + 1 && Init(states[0])
    && forall i :: 0 <= i < |actions| ==>
      Enabled(states[i], actions[i]) && states[i + 1] == Apply(states[i], actions[i])
  }

  // ---- the invariant ----

  predicate HoldsPermit(pc: Pc) {
    !pc.Parsed? && !pc.Done?
  }

  predicate InMutex(pc: Pc) {
    pc.Locked? || pc.Picked? || pc.Renamed?
  }

  predicate KnowsLock(pc: Pc) {
    pc.HasLock? || InMutex(pc)
  }

  /** The handler's batch file was renamed into place, by its program counter. */
  predicate HasFile(pc: Pc) {
    pc.Renamed? || pc.Committed? || pc == Done(Ok200)
  }

  /** The handler still carries the number it renamed to. */
  predicate KnowsNumber(pc: Pc) {
    pc.Renamed? || pc.Committed?
  }

  /** Outcomes that never touched the raw directory's files. */
  predicate Untouched(pc: Pc) {
    pc.Parsed? || pc.Reserved? || pc.Missed? || pc.HasLock? || pc.Locked? || pc.Picked?
    || (pc.Failed? && pc.full) || (pc.Done? && pc.status != Internal500 && pc.status != Ok200)
  }

  ghost function Holders(s: State): set<nat> {
    set h | h in s.handlers && HoldsPermit(s.handlers[h].pc)
  }

  ghost predicate Slots(s: State) {
    s.reserved == |Holders(s)| && |s.queue| + s.reserved <= s.capacity
  }

  ghost predicate OneLockPerKey(s: State) {
    && (forall k :: k in s.locks ==> s.locks[k] < s.nextLock)
    && (forall j, k :: j in s.locks && k in s.locks && s.locks[j] == s.locks[k] ==> j == k)
    && (forall h :: h in s.handlers && KnowsLock(s.handlers[h].pc) ==>
          s.handlers[h].key in s.locks && s.handlers[h].pc.lock == s.locks[s.handlers[h].key])
  }

  ghost predicate Exclusive(s: State) {
    forall h :: h in s.handlers && InMutex(s.handlers[h].pc) ==>
      s.handlers[h].pc.lock in s.owner && s.owner[s.handlers[h].pc.lock] == h
  }

  ghost predicate PickedFree(s: State) {
    forall h :: h in s.handlers && s.handlers[h].pc.Picked? ==>
      1 <= s.handlers[h].pc.n <= BATCH_MAX && forall m :: m in DirOf(s, s.handlers[h].key) ==> m < s.handlers[h].pc.n
  }

  ghost predicate InRange(s: State) {
    forall i :: 0 <= i < |s.renames| ==>
      1 <= s.renames[i].n <= BATCH_MAX && s.renames[i].epoch <= EpochOf(s, s.renames[i].key)
  }

  /** A file renamed into the present directory is there, under the handler that put it. */
  ghost predicate InDirectory(s: State) {
    forall i :: 0 <= i < |s.renames| && s.renames[i].epoch == EpochOf(s, s.renames[i].key) ==>
      s.renames[i].n in DirOf(s, s.renames[i].key) && DirOf(s, s.renames[i].key)[s.renames[i].n] == s.renames[i].handler
  }

  /** Both renames went into the same lifetime of the same raw directory. */
  ghost predicate SameDirectory(r: Rename, q: Rename) {
    r.key == q.key && r.epoch == q.epoch
  }

  ghost predicate Increasing(s: State) {
    forall i, j :: 0 <= i < j < |s.renames| && SameDirectory(s.renames[i], s.renames[j]) ==>
      s.renames[i].n < s.renames[j].n
  }

  ghost predicate Numbered(s: State) {
    InRange(s) && InDirectory(s) && Increasing(s)
  }

  ghost predicate PutThere(s: State, k: Key, m: nat, h: nat) {
    exists i :: 0 <= i < |s.renames| && s.renames[i] == Rename(k, EpochOf(s, k), m, h)
  }

  /** Once its directory has been removed, every file in it comes from a rename since. */
  ghost predicate Traced(s: State) {
    forall k, m :: m in DirOf(s, k) && EpochOf(s, k) > 0 ==> PutThere(s, k, m, DirOf(s, k)[m])
  }

  ghost predicate RenamedBy(s: State, h: nat) {
    exists i :: 0 <= i < |s.renames| && s.renames[i].handler == h
  }

  /** Each handler renames at most once; a file in place is recorded, an untouched outcome has none. */
  ghost predicate Outcomes(s: State) {
    && (forall i, j :: 0 <= i < j < |s.renames| ==> s.renames[i].handler != s.renames[j].handler)
    && (forall i :: 0 <= i < |s.renames| ==>
          s.renames[i].handler in s.handlers && s.handlers[s.renames[i].handler].key == s.renames[i].key
          && !Untouched(s.handlers[s.renames[i].handler].pc))
    && (forall h :: h in s.handlers && HasFile(s.handlers[h].pc) ==> RenamedBy(s, h))
    && (forall i :: 0 <= i < |s.renames| && KnowsNumber(s.handlers[s.renames[i].handler].pc) ==>
          s.handlers[s.renames[i].handler].pc.n == s.renames[i].n)
  }

  /** Everything sent so far: what the decoder took, then what is queued. */
  ghost function Sent(s: State): seq<Submission> {
    s.received + s.queue
  }

  ghost predicate SentBy(s: State, h: nat) {
    exists i :: 0 <= i < |Sent(s)| && Sent(s)[i].handler == h
  }

  ghost predicate FromRename(s: State, x: Submission) {
    exists i :: 0 <= i < |s.renames| && s.renames[i].handler == x.handler && s.renames[i].key == x.key
      && s.renames[i].n == x.n
  }

  /** A submission is sent exactly by the handlers that answered 200, once each, for their own file. */
  ghost predicate Submitted(s: State) {
    && (forall h :: h in s.handlers && s.handlers[h].pc == Done(Ok200) ==> SentBy(s, h))
    && (forall i :: 0 <= i < |Sent(s)| ==>
          Sent(s)[i].handler in s.handlers && s.handlers[Sent(s)[i].handler].pc == Done(Ok200)
            && FromRename(s, Sent(s)[i]))
    && (forall i, j :: 0 <= i < j < |Sent(s)| ==> Sent(s)[i].handler != Sent(s)[j].handler)
  }

  ghost predicate Inv(s: State) {
    && Slots(s) && OneLockPerKey(s) && Exclusive(s) && PickedFree(s) && Numbered(s) && Traced(s) && Outcomes(s)
      && Submitted(s)
  }

  lemma InitInv(s: State)
    requires Init(s)
    ensures Inv(s)
  {
  }

  // ---- every step keeps it ----

  /** Only reserving and responding change whether a handler holds a permit. */
  lemma PermitMoves(s: State, a: Action)
    requires Enabled(s, a) && ByHandler(a) && !a.Arrive?
    ensures var before, after := HoldsPermit(s.handlers[a.h].pc), HoldsPermit(NewPc(s, a, s.handlers[a.h]));
            if a.TryReserve? then !before && (after <==> |s.queue| + s.reserved < s.capacity)
            else if a.Respond? then before && !after
            else before == after
  {
    hide NextNumber;
  }

  lemma HoldersAfter(s: State, a: Action)
    requires Enabled(s, a)
    ensures Holders(Apply(s, a)) ==
            if a.TryReserve? && |s.queue| + s.reserved < s.capacity then Holders(s) + {a.h}
            else if a.Respond? then Holders(s) - {a.h}
            else Holders(s)
    ensures a.TryReserve? ==> a.h !in Holders(s)
    ensures a.Respond? ==> a.h in Holders(s)
  {
    hide Ready, NewPc, NextNumber, NewQueue, NewReceived, NewLocks, NewOwner, NewDirs, NewRenames, HoldsPermit;
    if ByHandler(a) && !a.Arrive? {
      PermitMoves(s, a);
    } else if a.Arrive? {
      assert !HoldsPermit(Parsed) by { ParsedHasNoPermit(); }
    }
  }

  lemma ParsedHasNoPermit()
    ensures !HoldsPermit(Parsed)
  {
  }

  lemma StepSlots(s: State, a: Action)
    requires Slots(s) && Enabled(s, a)
    ensures Slots(Apply(s, a))
  {
    hide Ready, NewPc, NextNumber, NewHandlers, NewReceived, NewLocks, NewOwner, NewDirs, NewRenames, HoldsPermit,
         Holders;
    HoldersAfter(s, a);
  }

  lemma MoverKnowsItsLock(s: State, a: Action)
    requires OneLockPerKey(s) && Enabled(s, a) && ByHandler(a) && !a.Arrive?
    ensures var pc', k := NewPc(s, a, s.handlers[a.h]), s.handlers[a.h].key;
            KnowsLock(pc') ==> k in NewLocks(s, a) && pc'.lock == NewLocks(s, a)[k]
  {
    hide NextNumber;
  }

  lemma StepLocks(s: State, a: Action)
    requires OneLockPerKey(s) && Enabled(s, a)
    ensures OneLockPerKey(Apply(s, a))
  {
    hide Ready, NewPc, NextNumber, NewReserved, NewQueue, NewReceived, NewOwner, NewDirs, NewRenames, NewEpochs;
    if ByHandler(a) && !a.Arrive? {
      MoverKnowsItsLock(s, a);
    }
  }

  /** Inside the mutex a handler keeps its lock; it gets in only past `Acquire`, and leaving frees the lock. */
  lemma MoverOwnsItsLock(s: State, a: Action)
    requires Exclusive(s) && Enabled(s, a) && ByHandler(a) && !a.Arrive?
    ensures var pc', c := NewPc(s, a, s.handlers[a.h]), s.handlers[a.h];
            && (InMutex(pc') ==> pc'.lock in NewOwner(s, a) && NewOwner(s, a)[pc'.lock] == a.h)
            && (InMutex(pc') ==> KnowsLock(c.pc) && pc'.lock == c.pc.lock)
            && (forall l :: l in s.owner && s.owner[l] != a.h ==>
              l in NewOwner(s, a) && NewOwner(s, a)[l] == s.owner[l])
  {
    hide NextNumber;
  }

  lemma StepExclusive(s: State, a: Action)
    requires Exclusive(s) && Enabled(s, a)
    ensures Exclusive(Apply(s, a))
  {
    hide Ready, NewPc, NextNumber, NewReserved, NewQueue, NewReceived, NewLocks, NewDirs, NewRenames, NewEpochs;
    if ByHandler(a) && !a.Arrive? {
      MoverOwnsItsLock(s, a);
    }
  }

  /** Two handlers of one key are never in the mutex together. */
  lemma OnePerKey(s: State, g: nat, h: nat)
    requires OneLockPerKey(s) && Exclusive(s)
    requires g in s.handlers && h in s.handlers && InMutex(s.handlers[g].pc) && InMutex(s.handlers[h].pc)
    requires s.handlers[g].key == s.handlers[h].key
    ensures g == h
  {
  }

  lemma PickedAfter(s: State, a: Action, h: nat)
    requires PickedFree(s) && Enabled(s, a) && h in Apply(s, a).handlers && Apply(s, a).handlers[h].pc.Picked?
    ensures h in s.handlers && InMutex(s.handlers[h].pc) && Apply(s, a).handlers[h].key == s.handlers[h].key
    ensures var n := Apply(s, a).handlers[h].pc.n;
            1 <= n <= BATCH_MAX && forall m :: m in DirOf(s, s.handlers[h].key) ==> m < n
    ensures a.DoRename? ==> a.h != h && s.handlers[a.h].pc.Picked?
  {
    hide NewReserved, NewQueue, NewReceived, NewLocks, NewDirs, NewRenames, NewEpochs, NewOwner;
  }

  lemma DirAfter(s: State, a: Action, k: Key, m: nat)
    requires Enabled(s, a) && m in DirOf(Apply(s, a), k)
    ensures a != RemoveRaw(k)
    ensures if a.DoRename? && s.handlers[a.h].key == k && m == s.handlers[a.h].pc.n then DirOf(Apply(s, a), k)[m] == a.h
            else m in DirOf(s, k) && DirOf(Apply(s, a), k)[m] == DirOf(s, k)[m]
  {
    hide NewPc, NewReserved, NewQueue, NewReceived, NewLocks, NewRenames, NewEpochs, NewOwner, NewHandlers, NextNumber;
  }

  /** While a handler is between picking and renaming, nobody else adds a file to its directory. */
  lemma StepPickedFree(s: State, a: Action)
    requires OneLockPerKey(s) && Exclusive(s) && PickedFree(s) && Enabled(s, a)
    ensures PickedFree(Apply(s, a))
  {
    hide NewPc, Ready, NewReserved, NewQueue, NewReceived, NewLocks, NewRenames, NewEpochs, NewOwner, NewHandlers,
         NewDirs, NextNumber, DirOf;
    forall h | h in Apply(s, a).handlers && Apply(s, a).handlers[h].pc.Picked?
      ensures 1 <= Apply(s, a).handlers[h].pc.n <= BATCH_MAX
      ensures forall m :: m in DirOf(Apply(s, a), Apply(s, a).handlers[h].key) ==> m < Apply(s, a).handlers[h].pc.n
    {
      PickedAfter(s, a, h);
      forall m | m in DirOf(Apply(s, a), s.handlers[h].key)
        ensures m in DirOf(s, s.handlers[h].key) || (a.DoRename? && s.handlers[a.h].key == s.handlers[h].key)
      {
        DirAfter(s, a, s.handlers[h].key, m);
      }
      if a.DoRename? && s.handlers[a.h].key == s.handlers[h].key {
        OnePerKey(s, a.h, h);
      }
    }
  }

  lemma StepInRange(s: State, a: Action)
    requires PickedFree(s) && InRange(s) && Enabled(s, a)
    ensures InRange(Apply(s, a))
  {
    hide NewPc, NewReserved, NewQueue, NewReceived, NewLocks, NewOwner, NewHandlers, NewDirs, NextNumber, DirOf;
  }

  /** Files stay where they are until their directory is removed. */
  lemma DirKeeps(s: State, a: Action, k: Key, m: nat)
    requires PickedFree(s) && Enabled(s, a) && m in DirOf(s, k)
    ensures if a == RemoveRaw(k) then EpochOf(Apply(s, a), k) == EpochOf(s, k) + 1
            else (EpochOf(Apply(s, a), k) == EpochOf(s, k) && m in DirOf(Apply(s, a), k)
                  && DirOf(Apply(s, a), k)[m] == DirOf(s, k)[m])
  {
    hide NewPc, NewReserved, NewQueue, NewReceived, NewLocks, NewOwner, NewHandlers, NewRenames, NextNumber;
  }

  lemma NewRename(s: State, a: Action)
    requires Enabled(s, a) && a.DoRename?
    ensures var k, n := s.handlers[a.h].key, s.handlers[a.h].pc.n;
            && Apply(s, a).renames == s.renames + [Rename(k, EpochOf(s, k), n, a.h)]
            && n in DirOf(Apply(s, a), k) && DirOf(Apply(s, a), k)[n] == a.h
  {
    hide NewPc, NewReserved, NewQueue, NewReceived, NewLocks, NewOwner, NewHandlers, NewEpochs, NextNumber;
  }

  lemma OldEpoch(s: State, a: Action, k: Key)
    requires Enabled(s, a)
    ensures EpochOf(Apply(s, a), k) == EpochOf(s, k) + if a == RemoveRaw(k) then 1 else 0
    ensures !a.DoRename? ==> Apply(s, a).renames == s.renames
  {
    hide Ready, NewPc, NewReserved, NewQueue, NewReceived, NewLocks, NewOwner, NewHandlers, NewDirs, NextNumber;
  }

  lemma StepInDirectory(s: State, a: Action)
    requires PickedFree(s) && InRange(s) && InDirectory(s) && Enabled(s, a)
    ensures InDirectory(Apply(s, a))
  {
    hide PickedFree, Enabled, Apply, DirOf, EpochOf;
    var s' := Apply(s, a);
    if a.DoRename? {
      NewRename(s, a);
    }
    forall i | 0 <= i < |s'.renames| && s'.renames[i].epoch == EpochOf(s', s'.renames[i].key)
      ensures s'.renames[i].n in DirOf(s', s'.renames[i].key)
      ensures DirOf(s', s'.renames[i].key)[s'.renames[i].n] == s'.renames[i].handler
    {
      var r := s'.renames[i];
      OldEpoch(s, a, r.key);
      if i < |s.renames| {
        assert r == s.renames[i];
        DirKeeps(s, a, r.key, r.n);
      }
    }
  }

  lemma StepIncreasing(s: State, a: Action)
    requires PickedFree(s) && InDirectory(s) && Increasing(s) && Enabled(s, a)
    ensures Increasing(Apply(s, a))
  {
    hide NewPc, NewReserved, NewQueue, NewReceived, NewLocks, NewOwner, NewHandlers, NewDirs, NextNumber;
  }

  lemma StepNumbered(s: State, a: Action)
    requires PickedFree(s) && Numbered(s) && Enabled(s, a)
    ensures Numbered(Apply(s, a))
  {
    hide PickedFree, InRange, InDirectory, Increasing, Enabled, Apply;
    StepInRange(s, a);
    StepInDirectory(s, a);
    StepIncreasing(s, a);
  }

  lemma PutThereStays(s: State, a: Action, k: Key, m: nat, h: nat)
    requires Enabled(s, a) && a != RemoveRaw(k) && PutThere(s, k, m, h)
    ensures PutThere(Apply(s, a), k, m, h)
  {
    hide Enabled, Apply, EpochOf;
    OldEpoch(s, a, k);
    var i :| 0 <= i < |s.renames| && s.renames[i] == Rename(k, EpochOf(s, k), m, h);
    if a.DoRename? {
      NewRename(s, a);
    }
    assert Apply(s, a).renames[i] == s.renames[i];
  }

  lemma StepTraced(s: State, a: Action)
    requires Traced(s) && Enabled(s, a)
    ensures Traced(Apply(s, a))
  {
    hide Apply, NewPc, NextNumber, EpochOf, DirOf, PutThere;
    var s' := Apply(s, a);
    forall k, m | m in DirOf(s', k) && EpochOf(s', k) > 0
      ensures PutThere(s', k, m, DirOf(s', k)[m])
    {
      DirAfter(s, a, k, m);
      OldEpoch(s, a, k);
      if a.DoRename? && s.handlers[a.h].key == k && m == s.handlers[a.h].pc.n {
        JustPut(s, a);
      } else {
        PutThereStays(s, a, k, m, DirOf(s, k)[m]);
      }
    }
  }

  lemma JustPut(s: State, a: Action)
    requires Enabled(s, a) && a.DoRename?
    ensures PutThere(Apply(s, a), s.handlers[a.h].key, s.handlers[a.h].pc.n, a.h)
  {
    hide Apply, NewPc, NextNumber, EpochOf, DirOf;
    NewRename(s, a);
    OldEpoch(s, a, s.handlers[a.h].key);
    var i := |s.renames|;
    assert Apply(s, a).renames[i] == Rename(s.handlers[a.h].key, EpochOf(s, s.handlers[a.h].key), s.handlers[a.h].pc.n,
      a.h);
  }

  /** How the acting handler's outcome relates to its file. */
  lemma MoverOutcome(s: State, a: Action)
    requires Enabled(s, a) && ByHandler(a) && !a.Arrive?
    ensures var pc, pc' := s.handlers[a.h].pc, NewPc(s, a, s.handlers[a.h]);
            && (Untouched(pc') ==> !a.DoRename? && Untouched(pc))
            && (HasFile(pc') ==> a.DoRename? || HasFile(pc))
            && (a.DoRename? ==> Untouched(pc) && pc' == Renamed(pc.lock, pc.n))
            && ((pc'.Renamed? || pc'.Committed?) && !a.DoRename? ==> pc.Renamed? && pc'.n == pc.n)
            && (pc' == Done(Ok200) <==> a.Respond? && pc.Committed?)
            && pc != Done(Ok200)
  {
    hide NextNumber;
  }

  lemma RenamedByStays(s: State, a: Action, h: nat)
    requires Enabled(s, a)
    ensures RenamedBy(s, h) ==> RenamedBy(Apply(s, a), h)
    ensures a.DoRename? ==> RenamedBy(Apply(s, a), a.h)
  {
    hide NewPc, NewReserved, NewQueue, NewReceived, NewLocks, NewOwner, NewHandlers, NewDirs, NewEpochs, NextNumber,
         Ready;
    if RenamedBy(s, h) {
      var i :| 0 <= i < |s.renames| && s.renames[i].handler == h;
      assert Apply(s, a).renames[i] == s.renames[i];
    }
    if a.DoRename? {
      assert Apply(s, a).renames[|s.renames|].handler == a.h;
    }
  }

  /** The handler behind a rename, after a step. */
  lemma RenamerAfter(s: State, a: Action, i: nat)
    requires Outcomes(s) && Enabled(s, a) && i < |Apply(s, a).renames|
    ensures var r, s' := Apply(s, a).renames[i], Apply(s, a);
            && r.handler in s'.handlers && s'.handlers[r.handler].key == r.key && !Untouched(s'.handlers[r.handler].pc)
            && (s'.handlers[r.handler].pc.Renamed? || s'.handlers[r.handler].pc.Committed? ==>
              s'.handlers[r.handler].pc.n == r.n)
  {
    hide NewPc, NewReserved, NewQueue, NewReceived, NewLocks, NewOwner, NewDirs, NewEpochs, NextNumber, Ready,
         Untouched, HasFile, RenamedBy;
    if ByHandler(a) && !a.Arrive? {
      MoverOutcome(s, a);
    }
  }

  lemma StepOutcomes(s: State, a: Action)
    requires Outcomes(s) && Enabled(s, a)
    ensures Outcomes(Apply(s, a))
  {
    hide NewPc, NewReserved, NewQueue, NewReceived, NewLocks, NewOwner, NewDirs, NewEpochs, NextNumber, Ready,
         Untouched, RenamedBy, HasFile;
    var s' := Apply(s, a);
    forall i | 0 <= i < |s'.renames|
      ensures s'.renames[i].handler in s'.handlers && s'.handlers[s'.renames[i].handler].key == s'.renames[i].key
      ensures !Untouched(s'.handlers[s'.renames[i].handler].pc)
      ensures s'.handlers[s'.renames[i].handler].pc.Renamed? || s'.handlers[s'.renames[i].handler].pc.Committed? ==>
                s'.handlers[s'.renames[i].handler].pc.n == s'.renames[i].n
    {
      RenamerAfter(s, a, i);
    }
    forall h | h in s'.handlers && HasFile(s'.handlers[h].pc)
      ensures RenamedBy(s', h)
    {
      RenamedByStays(s, a, h);
      FileAfter(s, a, h);
    }
    if a.DoRename? {
      MoverOutcome(s, a);
    }
  }

  lemma FileAfter(s: State, a: Action, h: nat)
    requires Enabled(s, a) && h in Apply(s, a).handlers && HasFile(Apply(s, a).handlers[h].pc)
    ensures (a.DoRename? && a.h == h) || (h in s.handlers && HasFile(s.handlers[h].pc))
  {
    hide NewPc, NewReserved, NewQueue, NewReceived, NewLocks, NewOwner, NewDirs, NewEpochs, NewRenames, NextNumber,
         Ready;
    if ByHandler(a) && !a.Arrive? {
      MoverOutcome(s, a);
    }
  }

  /** The queue loses, duplicates and reorders nothing. */
  lemma SentAfter(s: State, a: Action)
    requires Enabled(s, a)
    ensures Sent(Apply(s, a)) ==
            Sent(s) + if a.Respond? && s.handlers[a.h].pc.Committed?
                      then [Submission(s.handlers[a.h].key, s.handlers[a.h].pc.n, a.h)] else []
  {
    hide NewPc, NewReserved, NewLocks, NewOwner, NewDirs, NewEpochs, NewRenames, NewHandlers, NextNumber, Ready;
    if a.Receive? {
      assert s.queue == [s.queue[0]] + s.queue[1..];
    }
  }

  lemma FromRenameStays(s: State, a: Action, x: Submission)
    requires Enabled(s, a) && FromRename(s, x)
    ensures FromRename(Apply(s, a), x)
  {
    hide NewPc, NewReserved, NewQueue, NewReceived, NewLocks, NewOwner, NewDirs, NewEpochs, NewHandlers, NextNumber,
         Ready;
    var i :| 0 <= i < |s.renames| && s.renames[i].handler == x.handler && s.renames[i].key == x.key
      && s.renames[i].n == x.n;
    assert Apply(s, a).renames[i] == s.renames[i];
  }

  lemma CommittedFromRename(s: State, h: nat)
    requires Outcomes(s) && h in s.handlers && s.handlers[h].pc.Committed?
    ensures FromRename(s, Submission(s.handlers[h].key, s.handlers[h].pc.n, h))
  {
    hide Untouched;
    assert RenamedBy(s, h);
  }

  lemma AnsweredAfter(s: State, a: Action, h: nat)
    requires Enabled(s, a)
    ensures h in s.handlers && s.handlers[h].pc == Done(Ok200) ==>
      h in Apply(s, a).handlers && Apply(s, a).handlers[h].pc == Done(Ok200)
    ensures h in Apply(s, a).handlers && Apply(s, a).handlers[h].pc == Done(Ok200) ==>
              (h in s.handlers && s.handlers[h].pc == Done(Ok200)) || (a.Respond? && a.h == h
                && s.handlers[h].pc.Committed?)
    ensures a.Respond? && s.handlers[a.h].pc.Committed? ==>
      a.h in Apply(s, a).handlers && Apply(s, a).handlers[a.h].pc == Done(Ok200)
  {
    hide NewPc, NewReserved, NewQueue, NewReceived, NewLocks, NewOwner, NewDirs, NewEpochs, NewRenames, NextNumber,
         Ready, Untouched, HasFile;
    if ByHandler(a) && !a.Arrive? {
      MoverOutcome(s, a);
    }
  }

  lemma StepSubmitted(s: State, a: Action)
    requires Outcomes(s) && Submitted(s) && Enabled(s, a)
    ensures Submitted(Apply(s, a))
  {
    hide Apply, Sent, Outcomes, FromRename, Ready;
    var s' := Apply(s, a);
    SentAfter(s, a);
    forall i | 0 <= i < |Sent(s')|
      ensures Sent(s')[i].handler in s'.handlers && s'.handlers[Sent(s')[i].handler].pc == Done(Ok200)
      ensures FromRename(s', Sent(s')[i])
    {
      AnsweredAfter(s, a, Sent(s')[i].handler);
      if i < |Sent(s)| {
        assert Sent(s')[i] == Sent(s)[i];
      } else {
        assert Sent(s')[i] == Submission(s.handlers[a.h].key, s.handlers[a.h].pc.n, a.h);
        CommittedFromRename(s, a.h);
      }
      FromRenameStays(s, a, Sent(s')[i]);
    }
    forall h | h in s'.handlers && s'.handlers[h].pc == Done(Ok200)
      ensures SentBy(s', h)
    {
      AnsweredAfter(s, a, h);
      if h in s.handlers && s.handlers[h].pc == Done(Ok200) {
        var i :| 0 <= i < |Sent(s)| && Sent(s)[i].handler == h;
        assert Sent(s')[i] == Sent(s)[i];
      } else {
        assert Sent(s')[|Sent(s)|].handler == h;
      }
    }
  }

  // ---- over every run ----

  lemma StepInv(s: State, a: Action)
    requires Inv(s) && Enabled(s, a)
    ensures Inv(Apply(s, a))
  {
    hide Slots, OneLockPerKey, Exclusive, PickedFree, Numbered, Traced, Outcomes, Submitted, Apply, Enabled;
    StepSlots(s, a);
    StepLocks(s, a);
    StepExclusive(s, a);
    StepPickedFree(s, a);
    StepNumbered(s, a);
    StepTraced(s, a);
    StepOutcomes(s, a);
    StepSubmitted(s, a);
  }

  lemma {:induction false} RunInv(states: seq<State>, actions: seq<Action>, i: nat)
    requires Run(states, actions) && i < |states|
    ensures Inv(states[i])
  {
    hide Inv, Apply, Enabled, Init;
    if i == 0 {
      InitInv(states[0]);
    } else {
      RunInv(states, actions, i - 1);
      StepInv(states[i - 1], actions[i - 1]);
    }
  }

  /** In every reachable state: the slots never exceed the capacity; all handlers of a key use one
      mutex and at most one of them is inside it. */
  lemma QueueAndMutexSafety(states: seq<State>, actions: seq<Action>, i: nat, g: nat, h: nat)
    requires Run(states, actions) && i < |states|
    ensures var s := states[i];
            && |s.queue| + |Holders(s)| <= s.capacity
            && (g in s.handlers && h in s.handlers && s.handlers[g].key == s.handlers[h].key ==>
                  (KnowsLock(s.handlers[g].pc) && KnowsLock(s.handlers[h].pc) ==>
                    s.handlers[g].pc.lock == s.handlers[h].pc.lock)
                  && (InMutex(s.handlers[g].pc) && InMutex(s.handlers[h].pc) ==> g == h))
  {
    hide Run, PickedFree, Numbered, Traced, Outcomes, Submitted;
    RunInv(states, actions, i);
    var s := states[i];
    if g in s.handlers && h in s.handlers && s.handlers[g].key == s.handlers[h].key && InMutex(s.handlers[g].pc)
      && InMutex(s.handlers[h].pc) {
      OnePerKey(s, g, h);
    }
  }

  /** No rename ever replaces a file or happens without its directory, and the name it creates reads back as its
      number. */
  lemma RenameNeverReplaces(states: seq<State>, actions: seq<Action>, i: nat)
    requires Run(states, actions) && i < |actions| && actions[i].DoRename?
    ensures var s, h := states[i], actions[i].h;
            && h in s.handlers && s.handlers[h].pc.Picked? && s.handlers[h].key in s.dirs
            && s.handlers[h].pc.n !in DirOf(s, s.handlers[h].key)
            && 1 <= s.handlers[h].pc.n <= BATCH_MAX
            && ParseBatchNumber(BatchName(s.handlers[h].pc.n)) == Some(s.handlers[h].pc.n)
  {
    hide Slots, OneLockPerKey, Exclusive, Numbered, Traced, Outcomes, Submitted, Apply, Init;
    RunInv(states, actions, i);
    NameRoundTrip(states[i].handlers[actions[i].h].pc.n);
  }

  /** Within one lifetime of a raw directory batch numbers only go up, to 9999 at most; so the same
      path is used twice only if the directory was removed in between. */
  lemma NumbersIncrease(states: seq<State>, actions: seq<Action>, k: nat, i: nat, j: nat)
    requires Run(states, actions) && k < |states| && i < j < |states[k].renames|
    requires states[k].renames[i].key == states[k].renames[j].key
    ensures states[k].renames[i].epoch == states[k].renames[j].epoch ==>
      1 <= states[k].renames[i].n < states[k].renames[j].n <= BATCH_MAX
    ensures states[k].renames[i].n == states[k].renames[j].n ==>
      states[k].renames[i].epoch != states[k].renames[j].epoch
  {
    hide Slots, OneLockPerKey, Exclusive, PickedFree, Traced, Outcomes, Submitted, Run;
    RunInv(states, actions, k);
  }

  /** A request answered 200 had its file renamed into place and its submission sent, once; nothing
      is sent for any other request. One answered 4xx, 503 or trace-full renamed nothing. */
  lemma AnswersAreTrue(states: seq<State>, actions: seq<Action>, i: nat, h: nat)
    requires Run(states, actions) && i < |states| && h in states[i].handlers && states[i].handlers[h].pc.Done?
    ensures var s, status := states[i], states[i].handlers[h].pc.status;
            && (status == Ok200 <==> SentBy(s, h)) && (status == Ok200 ==> RenamedBy(s, h))
            && (forall x :: x in Sent(s) && x.handler == h ==> FromRename(s, x))
            && (status == BadRequest4xx || status == Backpressure503 || status == TraceFull500 ==> !RenamedBy(s, h))
  {
    hide Slots, OneLockPerKey, Exclusive, PickedFree, Numbered, Traced, Run;
    RunInv(states, actions, i);
  }

  /** The handler's own file is in its raw directory. */
  ghost predicate FileThere(s: State, r: Rename) {
    r.n in DirOf(s, r.key) && DirOf(s, r.key)[r.n] == r.handler
  }

  /** A committed batch file is there, for the decoder or anyone, exactly as long as its directory has
      not been removed since its rename. So a 200 does not promise that the batch is recorded: the
      removal after a clean finalize does not look at the queue. */
  lemma FileThereIff(states: seq<State>, actions: seq<Action>, k: nat, i: nat)
    requires Run(states, actions) && k < |states| && i < |states[k].renames|
    ensures FileThere(states[k], states[k].renames[i]) <==>
      states[k].renames[i].epoch == EpochOf(states[k], states[k].renames[i].key)
  {
    hide Slots, OneLockPerKey, Exclusive, PickedFree, Increasing, Submitted, Run, DirOf, EpochOf;
    RunInv(states, actions, k);
    var s, r := states[k], states[k].renames[i];
    if FileThere(s, r) {
      assert EpochOf(s, r.key) > 0 ==> PutThere(s, r.key, r.n, r.handler);
    }
  }

  // ---- a 200 whose file is gone when the decoder takes it ----

  const K := Key("ab")

  /** The server just started, one slot, nothing on disk. */
  const IDLE := State(1, 0, [], [], map[], map[], 0, map[], map[], map[], [])

  ghost predicate Reached(s: State) {
    exists states, actions :: Run(states, actions) && states[|states| - 1] == s
  }

  lemma ReachedNext(s: State, a: Action)
    requires Reached(s) && Enabled(s, a)
    ensures Reached(Apply(s, a))
  {
    hide Enabled, Apply, Init;
    var states, actions :| Run(states, actions) && states[|states| - 1] == s;
    var states', actions' := states + [Apply(s, a)], actions + [a];
    forall i | 0 <= i < |actions'|
      ensures Enabled(states'[i], actions'[i]) && states'[i + 1] == Apply(states'[i], actions'[i])
    {
      if i < |actions| {
        assert states'[i] == states[i] && states'[i + 1] == states[i + 1] && actions'[i] == actions[i];
      }
    }
    assert Run(states', actions');
  }

  lemma ReachedIdle()
    ensures Reached(IDLE)
  {
    assert Run([IDLE], []);
  }

  lemma OneRequestReserves() returns (s: State)
    ensures Reached(s)
    ensures s == State(1, 1, [], [], map[0 := Handler(K, Missed)], map[], 0, map[], map[], map[], [])
  {
    hide Reached;
    ReachedIdle();
    var s1 := Apply(IDLE, Arrive(0, K));
    ReachedNext(IDLE, Arrive(0, K));
    var s2 := Apply(s1, TryReserve(0));
    ReachedNext(s1, TryReserve(0));
    s := Apply(s2, LookupLock(0));
    ReachedNext(s2, LookupLock(0));
  }

  /** One request, alone: after the number is picked. */
  lemma OneRequestPicks() returns (s: State)
    ensures Reached(s)
    ensures s == State(1, 1, [], [], map[0 := Handler(K, Picked(0, 1))], map[K := 0], 1, map[0 := 0], map[K := map[]],
                       map[], [])
  {
    hide Reached;
    var s3 := OneRequestReserves();
    var s4 := Apply(s3, InsertLock(0));
    ReachedNext(s3, InsertLock(0));
    var s5 := Apply(s4, Acquire(0));
    ReachedNext(s4, Acquire(0));
    s := Apply(s5, PickNumber(0, 1));
    ReachedNext(s5, PickNumber(0, 1));
  }

  lemma OneRequestCommits() returns (s: State)
    ensures Reached(s) && s.handlers == map[0 := Handler(K, Committed(1))] && s.queue == [] && s.received == []
    ensures s.dirs.Keys == {K}
  {
    hide Reached;
    var s6 := OneRequestPicks();
    var s7 := Apply(s6, DoRename(0));
    ReachedNext(s6, DoRename(0));
    s := Apply(s7, Synced(0));
    ReachedNext(s7, Synced(0));
  }

  /** The request is answered 200, a clean finalize removes the raw directory, the decoder takes the
      submission: its file is not there. */
  lemma AcceptedFileGone() returns (s: State)
    ensures Reached(s) && 0 in s.handlers && s.handlers[0].pc == Done(Ok200)
    ensures s.received == [Submission(K, 1, 0)] && DirOf(s, K) == map[]
  {
    hide Reached;
    var s8 := OneRequestCommits();
    var s9 := Apply(s8, Respond(0));
    ReachedNext(s8, Respond(0));
    var s10 := Apply(s9, RemoveRaw(K));
    ReachedNext(s9, RemoveRaw(K));
    s := Apply(s10, Receive);
    ReachedNext(s10, Receive);
  }

  /** A sync that fails after the rename: the request is answered with an internal error, its file stays in place,
      nothing is sent. */
  lemma FailedSyncLeavesFile() returns (s: State)
    ensures Reached(s) && 0 in s.handlers && s.handlers[0].pc == Done(Internal500)
    ensures DirOf(s, K) == map[1 := 0] && Sent(s) == []
  {
    hide Reached;
    var s6 := OneRequestPicks();
    var s7 := Apply(s6, DoRename(0));
    ReachedNext(s6, DoRename(0));
    var s8 := Apply(s7, CommitError(0));
    ReachedNext(s7, CommitError(0));
    s := Apply(s8, Respond(0));
    ReachedNext(s8, Respond(0));
  }

  /** An I/O failure can strike at any point inside the mutex, and nowhere else. */
  lemma FailsInside(s: State, h: nat)
    ensures Enabled(s, CommitError(h)) <==> h in s.handlers && InMutex(s.handlers[h].pc)
  {
  }
}
