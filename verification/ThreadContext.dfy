/**
 * The code that the parties of a joinable thread run on its context.  Before every access the
 * other parties, and spurious wakeups, do as they please.
 */
module ThreadContexts {
  import opened JoinableThreads

  /** Who makes a step; a spurious wakeup is nobody's. */
  function Mover(a: Action): Holder {
    match a
    case OwnerStep(wish, fails) => ByOwner
    case ChildStep(deed, absorbs) => ByChild
    case CancellerStep(i) => ByCanceller(i)
    case SpuriousWakeup => Nobody
  }

  /** A step of a party whose place leaves it no choice. */
  function StepOf(me: Holder): Action
    requires !me.Nobody?
  {
    match me
    case ByOwner => OwnerStep(ToJoin, false)
    case ByChild => ChildStep(Deed.Finish, false)
    case ByCanceller(i) => CancellerStep(i)
  }

  /** Is the party about to take the mutex? */
  predicate Locks(s: State, me: Holder) {
    match me
    case Nobody => false
    case ByOwner =>
      || s.owner.SpawnLocking? || s.owner.SpawnWoken? || s.owner.CancelLocking?
      || s.owner.JoinLocking? || s.owner.JoinWoken?
    case ByChild => s.child.EntryLocking? || s.child.TestLocking? || s.child.ExitLocking?
    case ByCanceller(i) => i < |s.cancellers| && s.cancellers[i].Locking?
  }

  /** Where it stands when it has. */
  function OwnerLocked(pc: OwnerPc): OwnerPc {
    match pc
    case SpawnLocking => SpawnTesting
    case SpawnWoken => SpawnTesting
    case CancelLocking => CancelStoring
    case JoinLocking(last) => JoinTesting(last)
    case JoinWoken(last) => JoinTesting(last)
    case _ => pc
  }

  function ChildLocked(pc: ChildPc): ChildPc {
    match pc
    case EntryLocking => StoringRunning
    case TestLocking => TestReading
    case ExitLocking => StoringExited
    case _ => pc
  }

  predicate Unlocks(s: State, me: Holder) {
    match me
    case Nobody => false
    case ByOwner => s.owner.SpawnUnlocking? || s.owner.CancelUnlocking? || s.owner.JoinUnlocking?
    case ByChild => s.child.EntryUnlocking? || s.child.TestUnlocking? || s.child.ExitUnlocking?
    case ByCanceller(i) => i < |s.cancellers| && s.cancellers[i].Unlocking?
  }

  function OwnerUnlocked(pc: OwnerPc): OwnerPc {
    match pc
    case SpawnUnlocking => Usable
    case CancelUnlocking => Usable
    case JoinUnlocking(last) => if last then Reaping else Usable
    case _ => pc
  }

  function ChildUnlocked(pc: ChildPc): ChildPc {
    match pc
    case EntryUnlocking => User
    case TestUnlocking(thrown) => if thrown then Throwing else User
    case ExitUnlocking => Terminating
    case _ => pc
  }

  /** A party's place is as it was, but that the owner may have been woken. */
  ghost predicate SamePlace(s: State, s': State, me: Holder) {
    match me
    case Nobody => true
    case ByOwner => s'.owner == s.owner || s'.owner == Woken(s.owner)
    case ByChild => s'.child == s.child
    case ByCanceller(i) => i < |s.cancellers| == |s'.cancellers| && s'.cancellers[i] == s.cancellers[i]
  }

  /** What the steps of others leave to a party. */
  ghost predicate Kept(s: State, s': State, me: Holder) {
    && SamePlace(s, s', me)
    && (me.ByOwner? ==> s'.child.Unborn? == s.child.Unborn?) && (me.ByChild? ==> s'.cause == s.cause)
  }

  ghost predicate Locked(s: State, s': State, me: Holder) {
    match me
    case Nobody => false
    case ByOwner => s'.owner == OwnerLocked(s.owner)
    case ByChild => s'.child == ChildLocked(s.child)
    case ByCanceller(i) => i < |s'.cancellers| && s'.cancellers[i].Storing?
  }

  ghost predicate Unlocked(s: State, s': State, me: Holder) {
    match me
    case Nobody => false
    case ByOwner => s'.owner == OwnerUnlocked(s.owner)
    case ByChild => s'.child == ChildUnlocked(s.child)
    case ByCanceller(i) => i < |s'.cancellers| && s'.cancellers[i].Away?
  }

  /** Trying to take the mutex is a step of the system, futile if it is not free. */
  lemma FutileStep(s: State, me: Holder)
    requires Locks(s, me) && !s.mutex.Nobody?
    ensures Next(s, StepOf(me)) == s
  {
  }

  lemma OwnerLockStep(s: State)
    requires Locks(s, ByOwner) && s.mutex.Nobody?
    ensures Next(s, StepOf(ByOwner)) == s.(mutex := ByOwner, owner := OwnerLocked(s.owner))
  {
  }

  lemma ChildLockStep(s: State)
    requires Locks(s, ByChild) && s.mutex.Nobody?
    ensures Next(s, StepOf(ByChild)) == s.(mutex := ByChild, child := ChildLocked(s.child))
  {
  }

  lemma OwnerUnlockStep(s: State)
    requires Unlocks(s, ByOwner)
    ensures Next(s, StepOf(ByOwner)) == s.(mutex := Nobody, owner := OwnerUnlocked(s.owner))
  {
  }

  lemma ChildUnlockStep(s: State)
    requires Unlocks(s, ByChild)
    ensures Next(s, StepOf(ByChild)) == s.(mutex := Nobody, child := ChildUnlocked(s.child))
  {
  }

  /** A party at the mutex is not the one a signal could wake. */
  lemma StaysThere(s: State, s': State, me: Holder)
    requires SamePlace(s, s', me) && (Locks(s, me) || Unlocks(s, me))
    ensures Locks(s', me) == Locks(s, me) && Unlocks(s', me) == Unlocks(s, me)
    ensures me.ByOwner? ==> s'.owner == s.owner
  {
  }

  lemma WokenOnce(pc: OwnerPc)
    ensures Woken(Woken(pc)) == Woken(pc)
  {
  }

  lemma OwnerIsNotChild(s: State, wish: Wish, fails: bool)
    requires OwnerInv(s)
    ensures !s.child.Unborn? ==> OwnerNext(s, wish, fails).child == s.child
    ensures OwnerNext(s, wish, fails).cause == s.cause
  {
  }

  /** What a step of the child leaves alone. */
  ghost predicate ChildOnly(s: State, s': State) {
    && (s'.owner == s.owner || s'.owner == Woken(s.owner))
    && s'.cancellers == s.cancellers && s'.child.Unborn? == s.child.Unborn?
  }

  lemma EntryIsChilds(s: State)
    requires Entering(s.child)
    ensures ChildOnly(s, EntryNext(s))
  {
  }

  lemma UserIsChilds(s: State, deed: Deed, absorbs: bool)
    requires !Entering(s.child) && !Decided(s.child)
    ensures ChildOnly(s, UserNext(s, deed, absorbs))
  {
  }

  lemma ExitIsChilds(s: State)
    requires Decided(s.child)
    ensures ChildOnly(s, ExitNext(s))
  {
  }

  lemma ChildIsNotOwner(s: State, deed: Deed, absorbs: bool)
    ensures ChildOnly(s, ChildNext(s, deed, absorbs))
  {
    if Entering(s.child) {
      EntryIsChilds(s);
    } else if Decided(s.child) {
      ExitIsChilds(s);
    } else {
      UserIsChilds(s, deed, absorbs);
    }
  }

  lemma CancellerIsAlone(s: State, i: nat)
    requires i < |s.cancellers|
    ensures var s' := CancellerNext(s, i);
      && s'.owner == s.owner && s'.child == s.child && s'.cause == s.cause && |s'.cancellers| == |s.cancellers|
      && forall j :: 0 <= j < |s.cancellers| && j != i ==> s'.cancellers[j] == s.cancellers[j]
  {
  }

  /** Other parties' steps leave a party where it stands. */
  lemma OwnerKeepsPlaces(s: State, wish: Wish, fails: bool)
    requires Inv(s)
    ensures var s' := OwnerNext(s, wish, fails);
      (!s.child.Unborn? ==> s'.child == s.child) && s'.cancellers == s.cancellers && s'.cause == s.cause
  {
    OwnerIsNotChild(s, wish, fails);
    OwnerMovesMutex(s, wish, fails);
  }

  lemma OthersKeepPlace(s: State, a: Action, me: Holder)
    requires Inv(s) && Mover(a) != me && (me.ByChild? ==> !s.child.Unborn?)
    requires me.ByCanceller? ==> me.i < |s.cancellers|
    ensures Kept(s, Next(s, a), me)
  {
    match a
    case OwnerStep(wish, fails) => OwnerKeepsPlaces(s, wish, fails);
    case ChildStep(deed, absorbs) => ChildIsNotOwner(s, deed, absorbs);
    case CancellerStep(i) => if i < |s.cancellers| { CancellerIsAlone(s, i); }
    case SpuriousWakeup =>
  }

  /** The owner holds the mutex and the state it waits for has not come. */
  predicate Awaits(s: State) {
    (s.owner.SpawnTesting? && s.life.Initializing?) || (s.owner.JoinTesting? && !s.life.Exited?)
  }

  function Blocked(pc: OwnerPc): OwnerPc {
    match pc
    case SpawnTesting => SpawnBlocked
    case JoinTesting(last) => JoinBlocked(last)
    case _ => pc
  }

  lemma BlockStep(s: State)
    requires Awaits(s)
    ensures Next(s, StepOf(ByOwner)) == s.(mutex := Nobody, owner := Blocked(s.owner))
  {
  }

  /** Finding that the awaited state has come is a step of the system. */
  lemma SeenStep(s: State)
    requires (s.owner.SpawnTesting? && !s.life.Initializing?) || (s.owner.JoinTesting? && s.life.Exited?)
    ensures Next(s, StepOf(ByOwner)) == s.(owner := Seen(s.owner))
  {
  }

  function Seen(pc: OwnerPc): OwnerPc {
    match pc
    case SpawnTesting => SpawnUnlocking
    case JoinTesting(last) => JoinUnlocking(last)
    case _ => pc
  }

  lemma DeleteStep(s: State)
    requires s.owner.Deleting?
    ensures Next(s, StepOf(ByOwner)) == s.(deletes := s.deletes + 1, owner := Gone)
  {
  }

  lemma SleepStep(s: State)
    requires s.owner.SpawnBlocked? || s.owner.JoinBlocked?
    ensures Next(s, StepOf(ByOwner)) == s
  {
  }

  /** A party in the critical section of cancel(). */
  predicate Stores(s: State, me: Holder) {
    match me
    case ByOwner => s.owner.CancelStoring?
    case ByCanceller(i) => i < |s.cancellers| && s.cancellers[i].Storing?
    case _ => false
  }

  /** The owner, or a thread that is not in cancel() already, while the object is in use. */
  predicate MayCancel(s: State, me: Holder) {
    match me
    case ByOwner => s.owner.Usable?
    case ByCanceller(i) => i < |s.cancellers| && s.cancellers[i].Away? && InUse(s.owner)
    case _ => false
  }

  predicate MayCancelAgain(s: State, me: Holder) {
    match me
    case ByOwner => s.owner.Usable?
    case ByCanceller(i) => i < |s.cancellers| && s.cancellers[i].Away?
    case _ => false
  }

  lemma StoresStill(s: State, s': State, me: Holder)
    requires Stores(s, me) && SamePlace(s, s', me)
    ensures Stores(s', me)
  {
  }

  lemma StoreStep(s: State, me: Holder)
    requires Stores(s, me)
    ensures Next(s, StepOf(me)) ==
      if me.ByOwner? then StoreCancel(s).(owner := CancelUnlocking)
      else StoreCancel(s).(cancellers := s.cancellers[me.i := Unlocking])
  {
  }

  /** The party can only wait: for the mutex, for a signal, for the awaited state, or for the thread to end. */
  predicate HeldUp(s: State, me: Holder) {
    || (Locks(s, me) && !s.mutex.Nobody?)
    || (me.ByOwner? && (s.owner.SpawnBlocked? || s.owner.JoinBlocked? || Awaits(s)))
    || (me.ByOwner? && s.owner.Reaping? && !s.child.Terminated?)
  }

  /** What became of a call: it may still be waiting for the mutex or a signal when we stop looking. */
  datatype Outcome = Done | Waiting
  datatype Spawned = Running | Failed | SpawnWaiting
  datatype Tested = Clear | Signal | TestWaiting
  datatype Ending = Ended(cause: Cause) | EndWaiting

  /** The cause that the behaviour of the thread function calls for; it can be cancelled if it lets some signal out. */
  ghost predicate EndedAs(c: Cause, tests: nat, absorbs: nat -> bool, throws: bool) {
    match c
    case Cancelled => exists k: nat :: k < tests && !absorbs(k)
    case UncaughtException => throws
    case Completed => !throws
    case Na => false
  }

  /**
   * The context of a joinable thread.  life, cause, mutex, slot and deletes are what the code
   * works on.  The places of the parties, cancelled and schedule note what was done; of these
   * only the condition variable reads one, the place of the waiter it has to wake.
   */
  class ThreadContext {
    var life: Life
    var cause: Cause
    var mutex: Holder
    var slot: bool
    var deletes: nat
    var owner: OwnerPc
    var child: ChildPc
    var cancellers: seq<CancellerPc>
    var cancelled: bool
    ghost const n: nat
    ghost var schedule: seq<Action>

    function View(): State
      reads this
    {
      State(life, cause, mutex, slot, deletes, owner, child, cancellers, cancelled)
    }

    /** Everything that has happened is a run of the step system. */
    ghost predicate Valid()
      reads this
    {
      View() == Run(Init(n), schedule) && |cancellers| == n
    }

    /** What no party takes back. */
    twostate predicate Since()
      reads this
    {
      && old(schedule) <= schedule
      && (old(cancelled) ==> cancelled) && (old(life.Exited?) ==> life.Exited?)
    }

    constructor (n: nat)
      ensures Valid() && this.n == n && schedule == []
      ensures owner.Creating? && child.Unborn? && life.Initializing? && cause.Na? && deletes == 0
    {
      this.n := n;
      life, cause, mutex, slot, deletes := Initializing, Na, Nobody, false, 0;
      owner, child, cancellers, cancelled := Creating, Unborn, seq(n, i => Away), false;
      schedule := [];
      new;
      assert View() == Init(n);
    }

    /** Note the step just made. */
    ghost method Note(a: Action)
      requires View() == Next(Run(Init(n), schedule), a)
      requires |Run(Init(n), schedule).cancellers| == n
      modifies this`schedule
      ensures Valid() && schedule == old(schedule) + [a]
      ensures Forward(Run(Init(n), old(schedule)), View())
    {
      assert (schedule + [a])[..|schedule|] == schedule;
      RunKeepsInv(n, schedule);
      NextGoesForward(Run(Init(n), schedule), a);
      schedule := schedule + [a];
    }

    method Become(s: State)
      modifies this
      ensures View() == s && schedule == old(schedule)
    {
      life, cause, mutex, slot, deletes := s.life, s.cause, s.mutex, s.slot, s.deletes;
      owner, child, cancellers, cancelled := s.owner, s.child, s.cancellers, s.cancelled;
    }

    /** One step of another party, or a spurious wakeup. */
    method Other(me: Holder, a: Action)
      requires Valid() && Mover(a) != me && (me.ByChild? ==> !child.Unborn?) && (me.ByCanceller? ==> me.i < n)
      modifies this
      ensures Valid() && Since()
      ensures Kept(old(View()), View(), me)
    {
      var s := Next(View(), a);
      RunKeepsInv(n, schedule);
      OthersKeepPlace(View(), a, me);
      Become(s);
      Note(a);
    }

    /** Any number of steps of the other parties, and spurious wakeups. */
    method Others(me: Holder)
      requires Valid() && !me.Nobody? && (me.ByChild? ==> !child.Unborn?) && (me.ByCanceller? ==> me.i < n)
      modifies this
      ensures Valid() && Since()
      ensures Kept(old(View()), View(), me)
    {
      var rounds: nat :| 0 <= rounds;
      while rounds > 0
        invariant Valid() && Since()
        invariant Kept(old(View()), View(), me)
      {
        rounds := rounds - 1;
        var a: Action := *;
        if Mover(a) != me {
          WokenOnce(old(owner));
          Other(me, a);
        }
      }
    }

    /** Take the free mutex. */
    method Take(me: Holder)
      requires Valid() && Locks(View(), me) && mutex.Nobody?
      modifies this`mutex, this`owner, this`child, this`cancellers, this`schedule
      ensures Valid() && Since() && |schedule| > |old(schedule)|
      ensures mutex == me && Locked(old(View()), View(), me)
    {
      mutex := me;
      match me {
        case ByOwner =>
          OwnerLockStep(old(View()));
          owner := OwnerLocked(owner);
        case ByChild =>
          ChildLockStep(old(View()));
          child := ChildLocked(child);
        case ByCanceller(i) =>
          cancellers := cancellers[i := Storing];
      }
      Note(StepOf(me));
    }

    /** mutex.acquire(): wait until the mutex is free and take it. */
    method Lock(me: Holder, patience: nat) returns (r: Outcome)
      requires Valid() && Locks(View(), me)
      modifies this
      ensures Valid() && Since()
      ensures r.Done? ==> mutex == me && |schedule| > |old(schedule)| && Locked(old(View()), View(), me)
      ensures me.ByChild? ==> cause == old(cause)
      ensures r.Waiting? ==> HeldUp(View(), me) && |schedule| >= |old(schedule)| + patience
    {
      Others(me);
      StaysThere(old(View()), View(), me);
      var k := 0;
      while !mutex.Nobody? && k < patience
        invariant Valid() && Since() && Locks(View(), me) && SamePlace(old(View()), View(), me)
        invariant (me.ByOwner? ==> owner == old(owner)) && (me.ByChild? ==> cause == old(cause))
        invariant k <= patience && |schedule| >= |old(schedule)| + k
        decreases patience - k
      {
        FutileStep(View(), me);
        Note(StepOf(me));
        k := k + 1;
        Others(me);
        StaysThere(old(View()), View(), me);
      }
      if !mutex.Nobody? { return Waiting; }
      Take(me);
      r := Done;
    }

    /** mutex.release(). */
    method Unlock(me: Holder)
      requires Valid() && Unlocks(View(), me)
      modifies this
      ensures Valid() && Since() && |schedule| > |old(schedule)|
      ensures Unlocked(old(View()), View(), me) && (me.ByChild? ==> cause == old(cause))
    {
      Others(me);
      ghost var s := View();
      StaysThere(old(View()), s, me);
      mutex := Nobody;
      match me {
        case ByOwner =>
          OwnerUnlockStep(s);
          owner := OwnerUnlocked(owner);
        case ByChild =>
          ChildUnlockStep(s);
          child := ChildUnlocked(child);
        case ByCanceller(i) =>
          cancellers := cancellers[i := Away];
      }
      Note(StepOf(me));
    }

    // The owner.

    lemma OwnerKnows()
      requires Valid()
      ensures owner.Usable? ==> !life.Initializing?
      ensures owner.Creating? ==> child.Unborn?
      ensures life.Exited? ==> !cause.Na?
      ensures owner.Deleting? ==> deletes == 0 && !slot && (child.Terminated? || child.Unborn?)
    {
      RunKeepsInv(n, schedule);
    }

    /** Sleep until a signal or a spurious wakeup comes. */
    method Sleep(patience: nat) returns (r: Outcome)
      requires Valid() && (owner.SpawnBlocked? || owner.JoinBlocked?)
      modifies this
      ensures Valid() && Since()
      ensures r.Done? ==> owner == Woken(old(owner))
      ensures r.Waiting? ==> HeldUp(View(), ByOwner) && |schedule| >= |old(schedule)| + patience
    {
      Others(ByOwner);
      var k := 0;
      while (owner.SpawnBlocked? || owner.JoinBlocked?) && k < patience
        invariant Valid() && Since()
        invariant owner == old(owner) || owner == Woken(old(owner))
        invariant k <= patience && |schedule| >= |old(schedule)| + k
        decreases patience - k
      {
        SleepStep(View());
        Note(StepOf(ByOwner));
        k := k + 1;
        Others(ByOwner);
      }
      r := if owner.SpawnBlocked? || owner.JoinBlocked? then Waiting else Done;
    }

    method Block()
      requires Valid() && Awaits(View())
      modifies this`mutex, this`owner, this`schedule
      ensures Valid() && schedule == old(schedule) + [StepOf(ByOwner)]
      ensures View() == old(View()).(mutex := Nobody, owner := Blocked(old(owner)))
    {
      BlockStep(View());
      mutex, owner := Nobody, Blocked(owner);
      Note(StepOf(ByOwner));
    }

    /**
     * m_state_change_cv.wait(): give the mutex back and block, in one step; when a signal or a
     * spurious wakeup comes, take the mutex again.  What happens begins with that one step, so a
     * wait that is over was woken after it.
     */
    method Wait(patience: nat) returns (r: Outcome)
      requires Valid() && Awaits(View())
      modifies this
      ensures Valid() && Since() && old(schedule) + [StepOf(ByOwner)] <= schedule
      ensures Next(old(View()), StepOf(ByOwner)) == old(View()).(mutex := Nobody, owner := Blocked(old(owner)))
      ensures r.Done? ==> owner == old(owner) && mutex.ByOwner?
      ensures r.Waiting? ==> HeldUp(View(), ByOwner) && |schedule| >= |old(schedule)| + patience
    {
      BlockStep(View());
      Block();
      r := Sleep(patience);
      if r.Done? {
        r := Lock(ByOwner, patience);
      }
    }

    /** The context goes with the pointer that owns it. */
    method Delete()
      requires Valid() && owner.Deleting?
      modifies this
      ensures Valid() && Since() && |schedule| > |old(schedule)|
      ensures owner.Gone? && deletes == 1
      ensures if old(child.Unborn?) then child.Unborn? else child.Terminated? && !slot
    {
      Others(ByOwner);
      OwnerKnows();
      DeleteStep(View());
      deletes, owner := deletes + 1, Gone;
      Note(StepOf(ByOwner));
    }

    /** The loop of spawn_impl(). */
    method AwaitRunning(patience: nat) returns (r: Outcome)
      requires Valid() && owner.SpawnTesting?
      modifies this
      ensures Valid() && Since()
      ensures r.Done? ==> owner.SpawnUnlocking? && !life.Initializing?
      ensures r.Waiting? ==> HeldUp(View(), ByOwner) && |schedule| >= |old(schedule)| + patience
    {
      Others(ByOwner);
      var k := 0;
      while life.Initializing? && k < patience
        invariant Valid() && Since() && owner.SpawnTesting?
        invariant k <= patience && |schedule| >= |old(schedule)| + k
        decreases patience - k
      {
        r := Wait(patience);
        if r.Waiting? { return; }
        k := k + 1;
        Others(ByOwner);
      }
      if life.Initializing? { return Waiting; }
      SeenStep(View());
      owner := SpawnUnlocking;
      Note(StepOf(ByOwner));
      r := Done;
    }

    /** The creation of the thread in spawn_impl(): if it fails, the context is deleted, once. */
    method Create(fails: bool)
      requires Valid() && owner.Creating?
      modifies this
      ensures Valid() && Since()
      ensures if fails then owner.Gone? && deletes == 1 && child.Unborn? else owner.SpawnLocking?
    {
      Others(ByOwner);
      OwnerKnows();
      if fails {
        owner := Deleting;
        Note(OwnerStep(ToJoin, true));
        Delete();
      } else {
        owner, child := SpawnLocking, EntryLocking;
        Note(OwnerStep(ToJoin, false));
      }
    }

    /** spawn_impl(): create the thread and wait until it has left the initial state. */
    method Spawn(fails: bool, patience: nat) returns (r: Spawned)
      requires Valid() && owner.Creating?
      modifies this
      ensures Valid() && Since()
      ensures r.Running? ==> owner.Usable? && !life.Initializing?
      ensures r.Failed? <==> fails
      ensures r.Failed? ==> owner.Gone? && deletes == 1 && child.Unborn?
      ensures r.SpawnWaiting? ==> HeldUp(View(), ByOwner) && |schedule| >= |old(schedule)| + patience
    {
      Create(fails);
      if fails { return Failed; }
      var out := Lock(ByOwner, patience);
      if out.Waiting? { return SpawnWaiting; }
      out := AwaitRunning(patience);
      if out.Waiting? { return SpawnWaiting; }
      Unlock(ByOwner);
      OwnerKnows();
      r := Running;
    }

    /** The loop of join(). */
    method AwaitExited(last: bool, patience: nat) returns (r: Outcome)
      requires Valid() && owner == JoinTesting(last)
      modifies this
      ensures Valid() && Since()
      ensures r.Done? ==> owner == JoinUnlocking(last) && life.Exited?
      ensures r.Waiting? ==> HeldUp(View(), ByOwner) && |schedule| >= |old(schedule)| + patience
    {
      Others(ByOwner);
      var k := 0;
      while !life.Exited? && k < patience
        invariant Valid() && Since() && owner == JoinTesting(last)
        invariant k <= patience && |schedule| >= |old(schedule)| + k
        decreases patience - k
      {
        r := Wait(patience);
        if r.Waiting? { return; }
        k := k + 1;
        Others(ByOwner);
      }
      if !life.Exited? { return Waiting; }
      SeenStep(View());
      owner := JoinUnlocking(last);
      Note(StepOf(ByOwner));
      r := Done;
    }

    method LeaveJoin(last: bool)
      requires Valid() && owner == JoinUnlocking(last) && life.Exited?
      modifies this
      ensures Valid() && Since()
      ensures owner == (if last then Reaping else Usable) && life.Exited? && !cause.Na?
    {
      Unlock(ByOwner);
      OwnerKnows();
    }

    method JoinLocked(last: bool, patience: nat) returns (r: Outcome)
      requires Valid() && owner == JoinTesting(last)
      modifies this
      ensures Valid() && Since()
      ensures r.Done? ==> owner == (if last then Reaping else Usable) && life.Exited? && !cause.Na?
      ensures r.Waiting? ==> HeldUp(View(), ByOwner) && |schedule| >= |old(schedule)| + patience
    {
      r := AwaitExited(last, patience);
      if r.Done? { LeaveJoin(last); }
    }

    /** The body of join(). */
    method JoinGuarded(last: bool, patience: nat) returns (r: Outcome)
      requires Valid() && owner == JoinLocking(last)
      modifies this
      ensures Valid() && Since()
      ensures r.Done? ==> owner == (if last then Reaping else Usable) && life.Exited? && !cause.Na?
      ensures r.Waiting? ==> HeldUp(View(), ByOwner) && |schedule| >= |old(schedule)| + patience
    {
      r := Lock(ByOwner, patience);
      if r.Done? { r := JoinLocked(last, patience); }
    }

    /**
     * join(), called by the owner, or last of all by the destructor: wait until the thread has
     * exited.  A join that returns finds it exited, with its exit cause known.
     */
    method Join(last: bool, patience: nat) returns (r: Outcome)
      requires Valid() && owner.Usable? && (last ==> forall i :: 0 <= i < n ==> cancellers[i].Away?)
      modifies this
      ensures Valid() && Since()
      ensures old(schedule) + [OwnerStep(if last then ToDestroy else ToJoin, false)] <= schedule
      ensures r.Done? ==> owner == (if last then Reaping else Usable) && life.Exited? && !cause.Na?
      ensures r.Waiting? ==> HeldUp(View(), ByOwner) && |schedule| >= |old(schedule)| + patience
    {
      owner := JoinLocking(last);
      Note(OwnerStep(if last then ToDestroy else ToJoin, false));
      r := JoinGuarded(last, patience);
    }

    /** pthread_join(): wait for the system's thread to end. */
    method Reap(patience: nat) returns (r: Outcome)
      requires Valid() && owner.Reaping?
      modifies this
      ensures Valid() && Since()
      ensures r.Done? ==> owner.Deleting? && child.Terminated?
      ensures r.Waiting? ==> HeldUp(View(), ByOwner) && |schedule| >= |old(schedule)| + patience
    {
      Others(ByOwner);
      var k := 0;
      while !child.Terminated? && k < patience
        invariant Valid() && Since() && owner.Reaping?
        invariant k <= patience && |schedule| >= |old(schedule)| + k
        decreases patience - k
      {
        Note(StepOf(ByOwner));
        k := k + 1;
        Others(ByOwner);
      }
      if !child.Terminated? { return Waiting; }
      owner := Deleting;
      Note(StepOf(ByOwner));
      r := Done;
    }

    /** ~thread(): join, wait for the system's thread to end, and delete the context, once. */
    method Destroy(patience: nat) returns (r: Outcome)
      requires Valid() && owner.Usable? && forall i :: 0 <= i < n ==> cancellers[i].Away?
      modifies this
      ensures Valid() && Since() && old(schedule) + [OwnerStep(ToDestroy, false)] <= schedule
      ensures r.Done? ==> owner.Gone? && deletes == 1 && child.Terminated? && !slot
      ensures r.Waiting? ==> HeldUp(View(), ByOwner) && |schedule| >= |old(schedule)| + patience
    {
      r := Join(true, patience);
      if r.Done? {
        r := Reap(patience);
        if r.Done? { Delete(); }
      }
    }

    // cancel(), by the owner or by another thread.

    /** The critical section of cancel(). */
    method StoreCancelled(me: Holder)
      requires Valid() && Stores(View(), me)
      modifies this
      ensures Valid() && Since() && Unlocks(View(), me) && (me.ByOwner? ==> owner.CancelUnlocking?)
      ensures cancelled || life.Exited?
    {
      Others(me);
      StoresStill(old(View()), View(), me);
      StoreStep(View(), me);
      if !life.Exited? {
        life, cancelled := CancelPending, true;
      }
      match me {
        case ByOwner => owner := CancelUnlocking;
        case ByCanceller(i) => cancellers := cancellers[i := Unlocking];
      }
      Note(StepOf(me));
    }

    /** cancel(): a call that returns has taken effect, or found the thread exited. */
    method Cancel(me: Holder, patience: nat) returns (r: Outcome)
      requires Valid() && MayCancel(View(), me)
      modifies this
      ensures Valid() && Since()
      ensures old(schedule) + [if me.ByOwner? then OwnerStep(ToCancel, false) else StepOf(me)] <= schedule
      ensures r.Done? ==> (cancelled || life.Exited?) && MayCancelAgain(View(), me)
      ensures r.Waiting? ==> HeldUp(View(), me) && |schedule| >= |old(schedule)| + patience
    {
      match me {
        case ByOwner => owner := CancelLocking;
        case ByCanceller(i) => cancellers := cancellers[i := Locking];
      }
      Note(if me.ByOwner? then OwnerStep(ToCancel, false) else StepOf(me));
      r := CancelGuarded(me, patience);
    }

    method CancelGuarded(me: Holder, patience: nat) returns (r: Outcome)
      requires Valid() && (me.ByOwner? || me.ByCanceller?) && Locks(View(), me)
      requires me.ByOwner? ==> owner.CancelLocking?
      modifies this
      ensures Valid() && Since()
      ensures r.Done? ==> (cancelled || life.Exited?) && MayCancelAgain(View(), me)
      ensures r.Waiting? ==> HeldUp(View(), me) && |schedule| >= |old(schedule)| + patience
    {
      r := Lock(me, patience);
      if r.Waiting? { return; }
      StoreCancelled(me);
      Unlock(me);
    }

    // The child.

    lemma ChildKnows()
      requires Valid()
      ensures cancelled ==> life.CancelPending? || life.Exited?
      ensures life.CancelPending? ==> cancelled
      ensures life.Exited? <==> JoinableThreads.Ended(child)
      ensures child.User? ==> slot
      ensures Decided(child) && !child.ReleasingSlot? ==> !slot
    {
      RunKeepsInv(n, schedule);
    }

    /** The critical section of test_cancel(). */
    method ReadCancelled() returns (thrown: bool)
      requires Valid() && child.TestReading?
      modifies this
      ensures Valid() && Since() && child == TestUnlocking(thrown)
      ensures (old(cancelled) ==> thrown) && (thrown ==> cancelled)
    {
      Others(ByChild);
      ChildKnows();
      thrown := life.CancelPending?;
      child := TestUnlocking(thrown);
      Note(StepOf(ByChild));
    }

    /** test_cancel() finds the context in the thread-local slot, where a running thread has it. */
    method BeginTest()
      requires Valid() && child.User?
      modifies this
      ensures Valid() && Since() && child.TestLocking?
    {
      Others(ByChild);
      if !slot {
        ChildKnows();
        assert false;
      }
      child := TestLocking;
      Note(ChildStep(Test, false));
    }

    /**
     * test_cancel(), called by the thread function: throws if a cancel() has taken effect before
     * the call, and only if one has by the time it returns.
     */
    method TestCancel(patience: nat) returns (r: Tested)
      requires Valid() && child.User?
      modifies this
      ensures Valid() && Since()
      ensures !r.TestWaiting? ==> (old(cancelled) ==> r.Signal?) && (r.Signal? ==> cancelled)
      ensures r.Signal? ==> child.Throwing?
      ensures r.Clear? ==> child.User?
      ensures r.TestWaiting? ==> HeldUp(View(), ByChild) && |schedule| >= |old(schedule)| + patience
    {
      BeginTest();
      var out := Lock(ByChild, patience);
      if out.Waiting? { return TestWaiting; }
      var thrown := ReadCancelled();
      Unlock(ByChild);
      r := if thrown then Signal else Clear;
    }

    /** The thread function returns, throws, or lets a cancel signal out. */
    method EndWith(c: Cause)
      requires Valid() && (if c.Cancelled? then child.Throwing? else child.User? && !c.Na?)
      modifies this
      ensures Valid() && Since() && child == StoringCause(c)
    {
      Others(ByChild);
      child := StoringCause(c);
      Note(ChildStep(if c.UncaughtException? then Throw else Deed.Finish, false));
    }

    /** The thread function swallows a cancel signal. */
    method Absorb()
      requires Valid() && child.Throwing?
      modifies this
      ensures Valid() && Since() && child.User?
    {
      Others(ByChild);
      child := User;
      Note(ChildStep(Deed.Finish, true));
    }

    /**
     * A thread function: it calls test_cancel() a number of times, swallows the k-th signal if
     * absorbs(k), and then throws or returns.
     */
    method ThreadFunction(tests: nat, absorbs: nat -> bool, throws: bool, patience: nat) returns (r: Ending)
      requires Valid() && child.User?
      modifies this
      ensures Valid() && Since()
      ensures r.Ended? ==> child == StoringCause(r.cause) && EndedAs(r.cause, tests, absorbs, throws)
      ensures r.Ended? && r.cause.Cancelled? ==> cancelled
      ensures r.Ended? && old(cancelled) && tests >= 1 && !absorbs(0) ==> r.cause.Cancelled?
      ensures r.EndWaiting? ==> HeldUp(View(), ByChild) && |schedule| >= |old(schedule)| + patience
    {
      for k := 0 to tests
        invariant Valid() && Since() && child.User?
        invariant old(cancelled) && k >= 1 ==> absorbs(0)
      {
        var t := TestCancel(patience);
        if t.TestWaiting? { return EndWaiting; }
        if t.Signal? && !absorbs(k) {
          EndWith(Cancelled);
          return Ended(Cancelled);
        } else if t.Signal? {
          Absorb();
        }
      }
      r := Ended(if throws then UncaughtException else Completed);
      EndWith(r.cause);
    }

    /** m_state_change_cv.signal(). */
    method SignalWaiter()
      requires Valid() && (child.SignallingRunning? || child.SignallingExited?)
      modifies this
      ensures Valid() && Since()
      ensures child == (if old(child.SignallingRunning?) then SettingSlot else ExitUnlocking) && cause == old(cause)
    {
      Others(ByChild);
      owner := Woken(owner);
      child := if child.SignallingRunning? then SettingSlot else ExitUnlocking;
      Note(StepOf(ByChild));
    }

    /** The head of pthread_entry_wrapper(), mutex held: store running, signal, own the slot. */
    method StoreRunning()
      requires Valid() && child.StoringRunning?
      modifies this
      ensures Valid() && Since() && child.EntryUnlocking?
    {
      Others(ByChild);
      life, child := Alive, SignallingRunning;
      Note(StepOf(ByChild));
      SignalWaiter();
      SetSlot();
    }

    method SetSlot()
      requires Valid() && child.SettingSlot?
      modifies this
      ensures Valid() && Since() && child.EntryUnlocking?
    {
      Others(ByChild);
      slot, child := true, EntryUnlocking;
      Note(StepOf(ByChild));
    }

    /** Its tail, mutex held: store exited and signal. */
    method StoreExited()
      requires Valid() && child.StoringExited?
      modifies this
      ensures Valid() && Since() && child.ExitUnlocking? && cause == old(cause)
    {
      Others(ByChild);
      life, child := Exited, SignallingExited;
      Note(StepOf(ByChild));
      SignalWaiter();
    }

    /** Store the exit cause. */
    method StoreCause(c: Cause)
      requires Valid() && child == StoringCause(c)
      modifies this
      ensures Valid() && Since() && child.ReleasingSlot? && cause == c
    {
      Others(ByChild);
      cause, child := c, ReleasingSlot;
      Note(StepOf(ByChild));
    }

    /** Take the context out of the thread-local slot. */
    method ReleaseSlot()
      requires Valid() && child.ReleasingSlot?
      modifies this
      ensures Valid() && Since() && child.ExitLocking? && cause == old(cause)
    {
      Others(ByChild);
      slot, child := false, ExitLocking;
      Note(StepOf(ByChild));
    }

    method Decide(c: Cause)
      requires Valid() && child == StoringCause(c)
      modifies this
      ensures Valid() && Since() && child.ExitLocking? && cause == c
    {
      StoreCause(c);
      ReleaseSlot();
    }

    /** The system ends the thread and destroys what its thread-local slot still owns. */
    method Terminate()
      requires Valid() && child.Terminating?
      modifies this
      ensures Valid() && Since() && child.Terminated? && life.Exited? && !slot && cause == old(cause)
    {
      Others(ByChild);
      if slot { deletes := deletes + 1; }
      slot, child := false, Terminated;
      Note(StepOf(ByChild));
      ChildKnows();
    }

    /**
     * pthread_entry_wrapper(): announce that the thread runs, call the thread function, store
     * how it ended, and announce that the thread has exited.
     */
    method EntryWrapper(tests: nat, absorbs: nat -> bool, throws: bool, patience: nat) returns (r: Ending)
      requires Valid() && child.EntryLocking?
      modifies this
      ensures Valid() && Since()
      ensures r.Ended? ==> child.Terminated? && life.Exited? && !slot && cause == r.cause
      ensures r.Ended? ==> EndedAs(cause, tests, absorbs, throws)
      ensures r.Ended? && r.cause.Cancelled? ==> cancelled
      ensures r.EndWaiting? ==> HeldUp(View(), ByChild) && |schedule| >= |old(schedule)| + patience
    {
      var out := Lock(ByChild, patience);
      if out.Waiting? { return EndWaiting; }
      StoreRunning();
      Unlock(ByChild);
      r := ThreadFunction(tests, absorbs, throws, patience);
      if r.Ended? {
        out := ExitWrapper(r.cause, patience);
        if out.Waiting? { return EndWaiting; }
      }
    }

    method ExitWrapper(c: Cause, patience: nat) returns (r: Outcome)
      requires Valid() && child == StoringCause(c)
      modifies this
      ensures Valid() && Since()
      ensures r.Done? ==> child.Terminated? && life.Exited? && !slot && cause == c
      ensures r.Waiting? ==> HeldUp(View(), ByChild) && |schedule| >= |old(schedule)| + patience
    {
      Decide(c);
      r := Lock(ByChild, patience);
      if r.Done? { Finish(); }
    }

    /** With the mutex taken for the last time. */
    method Finish()
      requires Valid() && child.StoringExited?
      modifies this
      ensures Valid() && Since()
      ensures child.Terminated? && life.Exited? && !slot && cause == old(cause)
    {
      StoreExited();
      Unlock(ByChild);
      Terminate();
    }
  }
}
