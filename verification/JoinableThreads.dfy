/**
 * The life of a joinable thread.  Its context is shared by the owner (who spawns the thread,
 * may cancel and join it, and destroys the thread object), the child, and any number of other
 * threads that call cancel(), through one mutex and one condition variable.  An action lets
 * one of them make one step.  Waits may wake spuriously, as pthread_cond_wait allows.
 */
module JoinableThreads {

  datatype Life = Initializing | Alive | CancelPending | Exited
  datatype Cause = Na | Completed | Cancelled | UncaughtException

  datatype Holder = Nobody | ByOwner | ByChild | ByCanceller(i: nat)

  /** The owner in the constructor, cancel(), join() and the destructor (last means called from it). */
  datatype OwnerPc =
    | Creating                     // about to call pthread_create
    | SpawnLocking | SpawnTesting | SpawnBlocked | SpawnWoken | SpawnUnlocking
    | Usable                       // the thread object is constructed
    | CancelLocking | CancelStoring | CancelUnlocking
    | JoinLocking(last: bool) | JoinTesting(last: bool) | JoinBlocked(last: bool) | JoinWoken(last: bool)
    | JoinUnlocking(last: bool)
    | Reaping                      // about to return from pthread_join
    | Deleting                     // about to delete the context
    | Gone

  /** The child in pthread_entry_wrapper(), in its thread function (User), and in test_cancel(). */
  datatype ChildPc =
    | Unborn
    | EntryLocking | StoringRunning | SignallingRunning | SettingSlot | EntryUnlocking
    | User
    | TestLocking | TestReading | TestUnlocking(thrown: bool) | Throwing
    | StoringCause(cause: Cause)
    | ReleasingSlot
    | ExitLocking | StoringExited | SignallingExited | ExitUnlocking
    | Terminating                  // about to run the destructor of the thread-local slot
    | Terminated

  datatype CancellerPc = Away | Locking | Storing | Unlocking

  /**
   * life, cause, mutex and the child's thread-local slot are shared state.  deletes counts how
   * often the context was deleted; cancelled records that a cancel() took effect.
   */
  datatype State = State(life: Life, cause: Cause, mutex: Holder, slot: bool, deletes: nat,
                         owner: OwnerPc, child: ChildPc, cancellers: seq<CancellerPc>, cancelled: bool)

  datatype Wish = ToCancel | ToJoin | ToDestroy
  datatype Deed = Test | Finish | Throw

  datatype Action =
    | OwnerStep(wish: Wish, fails: bool)   // fails: pthread_create reports an error
    | ChildStep(deed: Deed, absorbs: bool) // absorbs: the thread function swallows a cancel signal
    | CancellerStep(i: nat)
    | SpuriousWakeup

  function Init(n: nat): State {
    State(Initializing, Na, Nobody, false, 0, Creating, Unborn, seq(n, i => Away), false)
  }

  /** Waking the one possible waiter, by a signal or spuriously. */
  function Woken(pc: OwnerPc): OwnerPc {
    match pc
    case SpawnBlocked => SpawnWoken
    case JoinBlocked(last) => JoinWoken(last)
    case _ => pc
  }

  /** Where a lock is taken: at the place given if the mutex is free, else stay. */
  function OwnerLocks(s: State, pc: OwnerPc): State {
    if s.mutex.Nobody? then s.(mutex := ByOwner, owner := pc) else s
  }

  function OwnerUnlocks(s: State, pc: OwnerPc): State {
    s.(mutex := Nobody, owner := pc)
  }

  /** cancel() with the mutex held. */
  function StoreCancel(s: State): State {
    if s.life.Exited? then s else s.(life := CancelPending, cancelled := true)
  }

  predicate InUse(pc: OwnerPc) {
    match pc
    case Usable => true
    case CancelLocking => true
    case CancelStoring => true
    case CancelUnlocking => true
    case JoinLocking(last) => !last
    case JoinTesting(last) => !last
    case JoinBlocked(last) => !last
    case JoinWoken(last) => !last
    case JoinUnlocking(last) => !last
    case _ => false
  }

  predicate Spawning(pc: OwnerPc) {
    pc.Creating? || pc.SpawnLocking? || pc.SpawnTesting? || pc.SpawnBlocked? || pc.SpawnWoken? || pc.SpawnUnlocking?
  }

  predicate Cancelling(pc: OwnerPc) {
    pc.CancelLocking? || pc.CancelStoring? || pc.CancelUnlocking?
  }

  function SpawnNext(s: State, fails: bool): State
    requires Spawning(s.owner)
  {
    match s.owner
    case Creating => if fails then s.(owner := Deleting) else s.(owner := SpawnLocking, child := EntryLocking)
    case SpawnLocking => OwnerLocks(s, SpawnTesting)
    case SpawnTesting => if s.life.Initializing? then OwnerUnlocks(s, SpawnBlocked) else s.(owner := SpawnUnlocking)
    case SpawnBlocked => s
    case SpawnWoken => OwnerLocks(s, SpawnTesting)
    case SpawnUnlocking => OwnerUnlocks(s, Usable)
  }

  function CancelNext(s: State): State
    requires Cancelling(s.owner)
  {
    match s.owner
    case CancelLocking => OwnerLocks(s, CancelStoring)
    case CancelStoring => StoreCancel(s).(owner := CancelUnlocking)
    case CancelUnlocking => OwnerUnlocks(s, Usable)
  }

  /** The destructor may be called when no other thread is inside cancel(). */
  function UseNext(s: State, wish: Wish): State {
    match wish
    case ToCancel => s.(owner := CancelLocking)
    case ToJoin => s.(owner := JoinLocking(false))
    case ToDestroy =>
      if forall i :: 0 <= i < |s.cancellers| ==> s.cancellers[i].Away? then s.(owner := JoinLocking(true)) else s
  }

  function JoinNext(s: State): State
    requires !Spawning(s.owner) && !Cancelling(s.owner) && !s.owner.Usable?
  {
    match s.owner
    case JoinLocking(last) => OwnerLocks(s, JoinTesting(last))
    case JoinTesting(last) =>
      if s.life.Exited? then s.(owner := JoinUnlocking(last)) else OwnerUnlocks(s, JoinBlocked(last))
    case JoinBlocked(last) => s
    case JoinWoken(last) => OwnerLocks(s, JoinTesting(last))
    case JoinUnlocking(last) => OwnerUnlocks(s, if last then Reaping else Usable)
    case Reaping => if s.child.Terminated? then s.(owner := Deleting) else s
    case Deleting => s.(deletes := s.deletes + 1, owner := Gone)
    case Gone => s
  }

  function OwnerNext(s: State, wish: Wish, fails: bool): State {
    if Spawning(s.owner) then SpawnNext(s, fails)
    else if Cancelling(s.owner) then CancelNext(s)
    else if s.owner.Usable? then UseNext(s, wish)
    else JoinNext(s)
  }

  function ChildLocks(s: State, pc: ChildPc): State {
    if s.mutex.Nobody? then s.(mutex := ByChild, child := pc) else s
  }

  function ChildUnlocks(s: State, pc: ChildPc): State {
    s.(mutex := Nobody, child := pc)
  }

  /** Before the child has stored running. */
  predicate Starting(pc: ChildPc) {
    pc.Unborn? || pc.EntryLocking? || pc.StoringRunning?
  }

  /** Before the child calls the thread function. */
  predicate Entering(pc: ChildPc) {
    Starting(pc) || pc.SignallingRunning? || pc.SettingSlot? || pc.EntryUnlocking?
  }

  /** After the child has stored exited. */
  predicate Ended(pc: ChildPc) {
    pc.SignallingExited? || pc.ExitUnlocking? || pc.Terminating? || pc.Terminated?
  }

  /** From the store of the exit cause on. */
  predicate Decided(pc: ChildPc) {
    pc.ReleasingSlot? || pc.ExitLocking? || pc.StoringExited? || Ended(pc)
  }

  function EntryNext(s: State): State
    requires Entering(s.child)
  {
    match s.child
    case Unborn => s
    case EntryLocking => ChildLocks(s, StoringRunning)
    case StoringRunning => s.(life := Alive, child := SignallingRunning)
    case SignallingRunning => s.(owner := Woken(s.owner), child := SettingSlot)
    case SettingSlot => s.(slot := true, child := EntryUnlocking)
    case EntryUnlocking => ChildUnlocks(s, User)
  }

  function UserNext(s: State, deed: Deed, absorbs: bool): State
    requires !Entering(s.child) && !Decided(s.child)
  {
    match s.child
    case User =>
      (match deed
       case Test => if s.slot then s.(child := TestLocking) else s
       case Finish => s.(child := StoringCause(Completed))
       case Throw => s.(child := StoringCause(UncaughtException)))
    case TestLocking => ChildLocks(s, TestReading)
    case TestReading => s.(child := TestUnlocking(s.life.CancelPending?))
    case TestUnlocking(thrown) => ChildUnlocks(s, if thrown then Throwing else User)
    case Throwing => s.(child := if absorbs then User else StoringCause(Cancelled))
    case StoringCause(cause) => s.(cause := cause, child := ReleasingSlot)
  }

  function ExitNext(s: State): State
    requires Decided(s.child)
  {
    match s.child
    case ReleasingSlot => s.(slot := false, child := ExitLocking)
    case ExitLocking => ChildLocks(s, StoringExited)
    case StoringExited => s.(life := Exited, child := SignallingExited)
    case SignallingExited => s.(owner := Woken(s.owner), child := ExitUnlocking)
    case ExitUnlocking => ChildUnlocks(s, Terminating)
    case Terminating => s.(deletes := s.deletes + (if s.slot then 1 else 0), slot := false, child := Terminated)
    case Terminated => s
  }

  function ChildNext(s: State, deed: Deed, absorbs: bool): State {
    if Entering(s.child) then EntryNext(s)
    else if Decided(s.child) then ExitNext(s)
    else UserNext(s, deed, absorbs)
  }

  function CancellerNext(s: State, i: nat): State
    requires i < |s.cancellers|
  {
    match s.cancellers[i]
    case Away => if InUse(s.owner) then s.(cancellers := s.cancellers[i := Locking]) else s
    case Locking => if s.mutex.Nobody? then s.(mutex := ByCanceller(i), cancellers := s.cancellers[i := Storing]) else s
    case Storing => StoreCancel(s).(cancellers := s.cancellers[i := Unlocking])
    case Unlocking => s.(mutex := Nobody, cancellers := s.cancellers[i := Away])
  }

  function Next(s: State, a: Action): State {
    match a
    case OwnerStep(wish, fails) => OwnerNext(s, wish, fails)
    case ChildStep(deed, absorbs) => ChildNext(s, deed, absorbs)
    case CancellerStep(i) => if i < |s.cancellers| then CancellerNext(s, i) else s
    case SpuriousWakeup => s.(owner := Woken(s.owner))
  }

  function Run(s: State, schedule: seq<Action>): State {
    if schedule == [] then s else Next(Run(s, schedule[..|schedule| - 1]), schedule[|schedule| - 1])
  }

  // Invariants.

  predicate OwnerHolds(pc: OwnerPc) {
    || pc.SpawnTesting? || pc.SpawnUnlocking?
    || pc.CancelStoring? || pc.CancelUnlocking?
    || pc.JoinTesting? || pc.JoinUnlocking?
  }

  predicate ChildHolds(pc: ChildPc) {
    || pc.StoringRunning? || pc.SignallingRunning? || pc.SettingSlot? || pc.EntryUnlocking?
    || pc.TestReading? || pc.TestUnlocking?
    || pc.StoringExited? || pc.SignallingExited? || pc.ExitUnlocking?
  }

  predicate CancellerHolds(pc: CancellerPc) {
    pc.Storing? || pc.Unlocking?
  }

  /** The mutex is held by exactly the party whose place says so. */
  ghost predicate MutexInv(s: State) {
    && (OwnerHolds(s.owner) <==> s.mutex.ByOwner?)
    && (ChildHolds(s.child) <==> s.mutex.ByChild?)
    && (s.mutex.ByCanceller? ==> s.mutex.i < |s.cancellers|)
    && forall i :: 0 <= i < |s.cancellers| ==> (CancellerHolds(s.cancellers[i]) <==> s.mutex == ByCanceller(i))
  }

  predicate SlotOwns(pc: ChildPc) {
    || pc.EntryUnlocking? || pc.User? || pc.TestLocking? || pc.TestReading? || pc.TestUnlocking?
    || pc.Throwing? || pc.StoringCause? || pc.ReleasingSlot?
  }

  predicate ChildInv(s: State) {
    && (Starting(s.child) <==> s.life.Initializing?)
    && (Ended(s.child) <==> s.life.Exited?)
    && (Decided(s.child) <==> !s.cause.Na?)
    && (s.child.StoringCause? ==> !s.child.cause.Na?)
    && (s.slot <==> SlotOwns(s.child))
    && (s.cancelled ==> s.life.CancelPending? || s.life.Exited?)
    && (s.life.CancelPending? ==> s.cancelled)
  }

  /** The thread object exists: its constructor has returned and its destructor has not deleted the context. */
  predicate Constructed(pc: OwnerPc) {
    || InUse(pc)
    || pc.JoinLocking? || pc.JoinTesting? || pc.JoinBlocked? || pc.JoinWoken? || pc.JoinUnlocking? || pc.Reaping?
  }

  predicate OwnerInv(s: State) {
    && (s.owner.Creating? ==> s.child.Unborn?)
    && (s.child.Unborn? ==> s.owner.Creating? || s.owner.Deleting? || s.owner.Gone?)
    && (s.owner.SpawnUnlocking? || Constructed(s.owner) ==> !s.life.Initializing?)
    && (s.owner.JoinUnlocking? || s.owner.Reaping? ==> s.life.Exited?)
    && (s.owner.Deleting? || s.owner.Gone? ==> s.child.Terminated? || s.child.Unborn?)
    && s.deletes == (if s.owner.Gone? then 1 else 0)
  }

  /** A blocked owner still waits for something, or the signal that wakes it is about to be given. */
  predicate WaitInv(s: State) {
    && (s.owner.SpawnBlocked? ==> s.life.Initializing? || s.child.SignallingRunning?)
    && (s.owner.JoinBlocked? ==> !s.life.Exited? || s.child.SignallingExited?)
  }

  ghost predicate UseInv(s: State) {
    forall i :: 0 <= i < |s.cancellers| && !s.cancellers[i].Away? ==> InUse(s.owner)
  }

  ghost predicate Inv(s: State) {
    MutexInv(s) && ChildInv(s) && OwnerInv(s) && WaitInv(s) && UseInv(s)
  }

  /** The mutex is taken when free and given back by its holder. */
  predicate MutexMoves(was: Holder, now: Holder, mover: Holder) {
    now == was || (was.Nobody? && now == mover) || (was == mover && now.Nobody?)
  }

  /** What a step of the owner does to who holds the mutex. */
  ghost predicate OwnerMoves(s: State, s': State) {
    && MutexMoves(s.mutex, s'.mutex, ByOwner) && s'.cancellers == s.cancellers
    && (OwnerHolds(s'.owner) <==> s'.mutex.ByOwner?) && ChildHolds(s'.child) == ChildHolds(s.child)
    && (InUse(s.owner) && !InUse(s'.owner) ==> forall i :: 0 <= i < |s.cancellers| ==> s.cancellers[i].Away?)
  }

  /** What a step of the child does to it. */
  ghost predicate ChildMoves(s: State, s': State) {
    && MutexMoves(s.mutex, s'.mutex, ByChild) && s'.cancellers == s.cancellers
    && (ChildHolds(s'.child) <==> s'.mutex.ByChild?)
    && OwnerHolds(s'.owner) == OwnerHolds(s.owner) && InUse(s'.owner) == InUse(s.owner)
  }

  ghost predicate LifeInv(s: State) {
    ChildInv(s) && OwnerInv(s) && WaitInv(s)
  }

  lemma SpawnMoves(s: State, fails: bool)
    requires Spawning(s.owner) && (OwnerHolds(s.owner) <==> s.mutex.ByOwner?) && OwnerInv(s)
    ensures OwnerMoves(s, SpawnNext(s, fails))
  {
  }

  lemma CancelMoves(s: State)
    requires Cancelling(s.owner) && (OwnerHolds(s.owner) <==> s.mutex.ByOwner?)
    ensures OwnerMoves(s, CancelNext(s))
  {
  }

  lemma UseMoves(s: State, wish: Wish)
    requires s.owner.Usable? && !s.mutex.ByOwner?
    ensures OwnerMoves(s, UseNext(s, wish))
  {
  }

  lemma JoinMoves(s: State)
    requires !Spawning(s.owner) && !Cancelling(s.owner) && !s.owner.Usable?
    requires OwnerHolds(s.owner) <==> s.mutex.ByOwner?
    ensures OwnerMoves(s, JoinNext(s))
  {
  }

  lemma OwnerMovesMutex(s: State, wish: Wish, fails: bool)
    requires (OwnerHolds(s.owner) <==> s.mutex.ByOwner?) && OwnerInv(s)
    ensures OwnerMoves(s, OwnerNext(s, wish, fails))
  {
    if Spawning(s.owner) {
      SpawnMoves(s, fails);
    } else if Cancelling(s.owner) {
      CancelMoves(s);
    } else if s.owner.Usable? {
      UseMoves(s, wish);
    } else {
      JoinMoves(s);
    }
  }

  lemma OwnerKeepsMutex(s: State, wish: Wish, fails: bool)
    requires MutexInv(s) && UseInv(s) && OwnerInv(s)
    ensures MutexInv(OwnerNext(s, wish, fails)) && UseInv(OwnerNext(s, wish, fails))
  {
    OwnerMovesMutex(s, wish, fails);
  }

  lemma SpawnKeepsLife(s: State, fails: bool)
    requires Spawning(s.owner) && LifeInv(s)
    ensures LifeInv(SpawnNext(s, fails))
  {
  }

  lemma CancelKeepsLife(s: State)
    requires Cancelling(s.owner) && LifeInv(s)
    ensures LifeInv(CancelNext(s))
  {
  }

  lemma UseKeepsLife(s: State, wish: Wish)
    requires s.owner.Usable? && LifeInv(s)
    ensures LifeInv(UseNext(s, wish))
  {
  }

  lemma JoinKeepsLife(s: State)
    requires !Spawning(s.owner) && !Cancelling(s.owner) && !s.owner.Usable? && LifeInv(s)
    ensures LifeInv(JoinNext(s))
  {
  }

  lemma OwnerKeepsLife(s: State, wish: Wish, fails: bool)
    requires LifeInv(s)
    ensures LifeInv(OwnerNext(s, wish, fails))
  {
    if Spawning(s.owner) {
      SpawnKeepsLife(s, fails);
    } else if Cancelling(s.owner) {
      CancelKeepsLife(s);
    } else if s.owner.Usable? {
      UseKeepsLife(s, wish);
    } else {
      JoinKeepsLife(s);
    }
  }

  lemma OwnerKeepsInv(s: State, wish: Wish, fails: bool)
    requires Inv(s)
    ensures Inv(OwnerNext(s, wish, fails))
  {
    OwnerKeepsMutex(s, wish, fails);
    OwnerKeepsLife(s, wish, fails);
  }

  lemma EntryMoves(s: State)
    requires Entering(s.child) && (ChildHolds(s.child) <==> s.mutex.ByChild?)
    ensures ChildMoves(s, EntryNext(s))
  {
  }

  lemma UserMoves(s: State, deed: Deed, absorbs: bool)
    requires !Entering(s.child) && !Decided(s.child) && (ChildHolds(s.child) <==> s.mutex.ByChild?)
    ensures ChildMoves(s, UserNext(s, deed, absorbs))
  {
  }

  lemma ExitMoves(s: State)
    requires Decided(s.child) && (ChildHolds(s.child) <==> s.mutex.ByChild?)
    ensures ChildMoves(s, ExitNext(s))
  {
  }

  lemma ChildMovesMutex(s: State, deed: Deed, absorbs: bool)
    requires ChildHolds(s.child) <==> s.mutex.ByChild?
    ensures ChildMoves(s, ChildNext(s, deed, absorbs))
  {
    if Entering(s.child) {
      EntryMoves(s);
    } else if Decided(s.child) {
      ExitMoves(s);
    } else {
      UserMoves(s, deed, absorbs);
    }
  }

  lemma ChildKeepsMutex(s: State, deed: Deed, absorbs: bool)
    requires MutexInv(s) && UseInv(s)
    ensures MutexInv(ChildNext(s, deed, absorbs)) && UseInv(ChildNext(s, deed, absorbs))
  {
    ChildMovesMutex(s, deed, absorbs);
  }

  lemma EntryKeepsLife(s: State)
    requires Entering(s.child) && LifeInv(s)
    ensures LifeInv(EntryNext(s))
  {
  }

  lemma UserKeepsLife(s: State, deed: Deed, absorbs: bool)
    requires !Entering(s.child) && !Decided(s.child) && LifeInv(s)
    ensures LifeInv(UserNext(s, deed, absorbs))
  {
  }

  lemma ExitKeepsLife(s: State)
    requires Decided(s.child) && LifeInv(s)
    ensures LifeInv(ExitNext(s))
  {
  }

  lemma ChildKeepsInv(s: State, deed: Deed, absorbs: bool)
    requires Inv(s)
    ensures Inv(ChildNext(s, deed, absorbs))
  {
    ChildKeepsMutex(s, deed, absorbs);
    if Entering(s.child) {
      EntryKeepsLife(s);
    } else if Decided(s.child) {
      ExitKeepsLife(s);
    } else {
      UserKeepsLife(s, deed, absorbs);
    }
  }

  lemma CancellerKeepsMutex(s: State, i: nat)
    requires MutexInv(s) && i < |s.cancellers|
    ensures MutexInv(CancellerNext(s, i))
  {
  }

  lemma CancellerKeepsUse(s: State, i: nat)
    requires UseInv(s) && i < |s.cancellers|
    ensures UseInv(CancellerNext(s, i))
  {
  }

  lemma StoreKeepsLife(s: State)
    requires LifeInv(s) && InUse(s.owner)
    ensures LifeInv(StoreCancel(s))
  {
  }

  lemma CancellerKeepsLife(s: State, i: nat)
    requires LifeInv(s) && UseInv(s) && i < |s.cancellers|
    ensures LifeInv(CancellerNext(s, i))
  {
    if s.cancellers[i].Storing? {
      StoreKeepsLife(s);
    }
  }

  lemma CancellerKeepsInv(s: State, i: nat)
    requires Inv(s) && i < |s.cancellers|
    ensures Inv(CancellerNext(s, i))
  {
    CancellerKeepsMutex(s, i);
    CancellerKeepsUse(s, i);
    CancellerKeepsLife(s, i);
  }

  lemma NextKeepsInv(s: State, a: Action)
    requires Inv(s)
    ensures Inv(Next(s, a))
  {
    match a
    case OwnerStep(wish, fails) => OwnerKeepsInv(s, wish, fails);
    case ChildStep(deed, absorbs) => ChildKeepsInv(s, deed, absorbs);
    case CancellerStep(i) => if i < |s.cancellers| { CancellerKeepsInv(s, i); }
    case SpuriousWakeup => SpuriousKeepsInv(s);
  }

  lemma SpuriousKeepsInv(s: State)
    requires Inv(s)
    ensures Inv(s.(owner := Woken(s.owner)))
  {
  }

  lemma {:induction false} RunKeepsInv(n: nat, schedule: seq<Action>)
    ensures Inv(Run(Init(n), schedule))
  {
    if schedule != [] {
      RunKeepsInv(n, schedule[..|schedule| - 1]);
      NextKeepsInv(Run(Init(n), schedule[..|schedule| - 1]), schedule[|schedule| - 1]);
    }
  }

  function Rank(life: Life): nat {
    match life
    case Initializing => 0
    case Alive => 1
    case CancelPending => 2
    case Exited => 3
  }

  /** What no step takes back. */
  predicate Forward(s: State, s': State) {
    && |s'.cancellers| == |s.cancellers| && (s.cancelled ==> s'.cancelled)
    && Rank(s.life) <= Rank(s'.life) && (s.life.Exited? ==> s'.cause == s.cause)
  }

  lemma OwnerGoesForward(s: State, wish: Wish, fails: bool)
    requires ChildInv(s)
    ensures Forward(s, OwnerNext(s, wish, fails))
  {
  }

  lemma EntryGoesForward(s: State)
    requires Entering(s.child) && ChildInv(s)
    ensures Forward(s, EntryNext(s))
  {
  }

  lemma UserGoesForward(s: State, deed: Deed, absorbs: bool)
    requires !Entering(s.child) && !Decided(s.child) && ChildInv(s)
    ensures Forward(s, UserNext(s, deed, absorbs))
  {
  }

  lemma ExitGoesForward(s: State)
    requires Decided(s.child) && ChildInv(s)
    ensures Forward(s, ExitNext(s))
  {
  }

  lemma CancellerGoesForward(s: State, i: nat)
    requires i < |s.cancellers| && ChildInv(s)
    ensures Forward(s, CancellerNext(s, i))
  {
  }

  lemma NextGoesForward(s: State, a: Action)
    requires ChildInv(s)
    ensures Forward(s, Next(s, a))
  {
    match a
    case OwnerStep(wish, fails) => OwnerGoesForward(s, wish, fails);
    case ChildStep(deed, absorbs) =>
      if Entering(s.child) {
        EntryGoesForward(s);
      } else if Decided(s.child) {
        ExitGoesForward(s);
      } else {
        UserGoesForward(s, deed, absorbs);
      }
    case CancellerStep(i) => if i < |s.cancellers| { CancellerGoesForward(s, i); }
    case SpuriousWakeup =>
  }

  // What it means.

  /**
   * No lost wakeup, even with spurious ones: whenever the mutex is free, a spawner that sleeps
   * has nothing to wake for yet, and neither has a joiner.
   */
  lemma NoLostWakeup(n: nat, schedule: seq<Action>)
    ensures var s := Run(Init(n), schedule);
      s.mutex.Nobody? ==>
        && (s.owner.SpawnBlocked? ==> s.life.Initializing?)
        && (s.owner.JoinBlocked? ==> !s.life.Exited?)
  {
    RunKeepsInv(n, schedule);
  }

  /** A step the party can take now, whatever the choices of the others, that is no spurious wakeup. */
  lemma NoDeadlock(n: nat, schedule: seq<Action>) returns (a: Action)
    requires !Run(Init(n), schedule).owner.Gone?
    ensures !a.SpuriousWakeup? && Next(Run(Init(n), schedule), a) != Run(Init(n), schedule)
  {
    RunKeepsInv(n, schedule);
    a := SomeoneMoves(Run(Init(n), schedule));
  }

  /** Can the owner only go on when the child has? */
  predicate WaitsForChild(s: State) {
    s.owner.SpawnBlocked? || s.owner.JoinBlocked? || (s.owner.Reaping? && !s.child.Terminated?)
  }

  lemma SomeoneMoves(s: State) returns (a: Action)
    requires Inv(s) && !s.owner.Gone?
    ensures !a.SpuriousWakeup? && Next(s, a) != s
  {
    if s.mutex.ByCanceller? {
      a := CancellerStep(s.mutex.i);
      assert Next(s, a).cancellers[s.mutex.i] != s.cancellers[s.mutex.i];
    } else if s.mutex.ByChild? || WaitsForChild(s) {
      a := ChildStep(Finish, false);
      ChildMovesOn(s);
    } else {
      a := OwnerStep(ToJoin, false);
    }
  }

  lemma ChildMovesOn(s: State)
    requires MutexInv(s) && !s.child.Unborn? && !s.child.Terminated? && (s.mutex.Nobody? || s.mutex.ByChild?)
    ensures ChildNext(s, Finish, false) != s
  {
  }

  /** Does the party to move touch the context?  The owner also owns it while it decides to delete it. */
  predicate Touches(s: State, a: Action) {
    match a
    case OwnerStep(wish, fails) => !s.owner.Gone?
    case ChildStep(deed, absorbs) => !s.child.Unborn? && !s.child.Terminating? && !s.child.Terminated?
    case CancellerStep(i) => i < |s.cancellers| && !s.cancellers[i].Away?
    case SpuriousWakeup => false
  }

  /**
   * Safe reclamation: the context is deleted exactly once, when the owner is done with it;
   * nobody touches it after that, and by then the child has ended and its thread-local slot,
   * which would delete the context too, has let go of it.
   */
  lemma DeletedOnceAndLast(n: nat, schedule: seq<Action>, a: Action)
    ensures var s := Run(Init(n), schedule);
      && s.deletes == (if s.owner.Gone? then 1 else 0)
      && (Touches(s, a) ==> s.deletes == 0)
      && (Next(s, a).deletes != s.deletes ==>
            a.OwnerStep? && (s.child.Terminated? || s.child.Unborn?) && !s.slot
            && forall i :: 0 <= i < |s.cancellers| ==> s.cancellers[i].Away?)
      && (s.child.Terminating? || s.child.Terminated? ==> !s.slot)
  {
    RunKeepsInv(n, schedule);
    DeletionIsLast(Run(Init(n), schedule), a);
  }

  lemma DeletionIsLast(s: State, a: Action)
    requires OwnerInv(s) && ChildInv(s) && UseInv(s)
    ensures Touches(s, a) ==> s.deletes == 0
    ensures Next(s, a).deletes != s.deletes ==>
      a.OwnerStep? && (s.child.Terminated? || s.child.Unborn?) && !s.slot
      && forall i :: 0 <= i < |s.cancellers| ==> s.cancellers[i].Away?
  {
  }

  /** A thread's state only moves forward, and its exit cause is stored once. */
  lemma StateMovesForward(n: nat, schedule: seq<Action>, a: Action)
    ensures var s := Run(Init(n), schedule);
      && Rank(s.life) <= Rank(Next(s, a).life)
      && (s.life.Exited? ==> !s.cause.Na? && Next(s, a).cause == s.cause)
  {
    RunKeepsInv(n, schedule);
    NextGoesForward(Run(Init(n), schedule), a);
  }

  /**
   * A cancel() of a constructed thread sticks: once one has taken effect, the state is cancel
   * pending until the thread exits, so every test_cancel() that looks before then throws.
   */
  lemma CancelSticks(n: nat, before: seq<Action>, after: seq<Action>)
    requires Run(Init(n), before).cancelled
    ensures var s := Run(Init(n), before + after);
      && s.cancelled && (s.life.CancelPending? || s.life.Exited?)
      && (s.child.TestReading? ==>
            forall deed, absorbs :: Next(s, ChildStep(deed, absorbs)).child == TestUnlocking(true))
  {
    CancelledStays(n, before, after);
    RunKeepsInv(n, before + after);
  }

  lemma {:induction false} CancelledStays(n: nat, before: seq<Action>, after: seq<Action>)
    requires Run(Init(n), before).cancelled
    ensures Run(Init(n), before + after).cancelled
    decreases |after|
  {
    if after == [] {
      assert before + after == before;
    } else {
      var earlier := before + after[..|after| - 1];
      CancelledStays(n, before, after[..|after| - 1]);
      assert (before + after)[..|before + after| - 1] == earlier;
      RunKeepsInv(n, earlier);
      NextGoesForward(Run(Init(n), earlier), after[|after| - 1]);
    }
  }

  /** A cancel() that finds the thread not exited takes effect, and the thread was running by then. */
  lemma CancelTakesEffect(n: nat, schedule: seq<Action>, a: Action)
    requires var s := Run(Init(n), schedule);
      || (a.OwnerStep? && s.owner.CancelStoring?)
      || (a.CancellerStep? && a.i < |s.cancellers| && s.cancellers[a.i].Storing?)
    ensures var s := Run(Init(n), schedule);
      && !s.life.Initializing?
      && if s.life.Exited? then Next(s, a).life.Exited? else Next(s, a).cancelled && Next(s, a).life.CancelPending?
  {
    RunKeepsInv(n, schedule);
  }

  /** A join() that has seen its condition returns with the thread exited and its final cause known. */
  lemma JoinSeesFinalCause(n: nat, schedule: seq<Action>)
    ensures var s := Run(Init(n), schedule);
      s.owner.JoinUnlocking? || s.owner.Reaping? ==> s.life.Exited? && !s.cause.Na?
  {
    RunKeepsInv(n, schedule);
  }
}
