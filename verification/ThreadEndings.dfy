/** How a thread ended, and whether it was cancelled, told from the schedule alone. */
module ThreadEndings {
  import opened JoinableThreads

  /** The state before the k-th action. */
  function At(n: nat, schedule: seq<Action>, k: nat): State
    requires k <= |schedule|
  {
    Run(Init(n), schedule[..k])
  }

  /** The thread function returns (completed), throws (uncaught), or lets a cancel signal out (cancelled). */
  predicate EndsNow(s: State, a: Action, c: Cause)
    requires a.ChildStep?
  {
    match c
    case Na => false
    case Completed => a.deed.Finish? && s.child.User?
    case UncaughtException => a.deed.Throw? && s.child.User?
    case Cancelled => !a.absorbs && s.child.Throwing?
  }

  /** It does so at the k-th action. */
  predicate Ends(n: nat, schedule: seq<Action>, k: nat, c: Cause)
    requires k < |schedule|
  {
    schedule[k].ChildStep? && EndsNow(At(n, schedule, k), schedule[k], c)
  }

  ghost predicate HasEnded(n: nat, schedule: seq<Action>, c: Cause) {
    exists k :: 0 <= k < |schedule| && Ends(n, schedule, k, c)
  }

  /** The thread function has ended in the way c. */
  predicate Sealed(s: State, c: Cause) {
    !c.Na? && (s.child == StoringCause(c) || (Decided(s.child) && s.cause == c))
  }

  lemma EarlierEndings(n: nat, schedule: seq<Action>, c: Cause)
    requires schedule != []
    ensures HasEnded(n, schedule, c) <==>
      HasEnded(n, schedule[..|schedule| - 1], c) || Ends(n, schedule, |schedule| - 1, c)
  {
    var earlier := schedule[..|schedule| - 1];
    forall k | 0 <= k < |earlier| ensures Ends(n, earlier, k, c) == Ends(n, schedule, k, c) {
      assert earlier[..k] == schedule[..k] && earlier[k] == schedule[k];
    }
    if HasEnded(n, earlier, c) {
      var k :| 0 <= k < |earlier| && Ends(n, earlier, k, c);
      assert Ends(n, schedule, k, c);
    }
    if HasEnded(n, schedule, c) && !Ends(n, schedule, |schedule| - 1, c) {
      var k :| 0 <= k < |schedule| && Ends(n, schedule, k, c);
      assert Ends(n, earlier, k, c);
    }
  }

  /** One action seals the way the thread function ends, or leaves it as it is. */
  lemma NextSeals(s: State, a: Action, c: Cause)
    requires ChildInv(s) && OwnerInv(s) && !c.Na?
    ensures Sealed(Next(s, a), c) <==> Sealed(s, c) || (a.ChildStep? && EndsNow(s, a, c))
  {
    match a
    case OwnerStep(wish, fails) => OwnerLeavesChild(s, wish, fails);
    case ChildStep(deed, absorbs) =>
      if Entering(s.child) {
        EntrySealsNothing(s, c);
      } else if Decided(s.child) {
        ExitSealsNothing(s, c);
      }
    case CancellerStep(i) => if i < |s.cancellers| { CancellerLeavesChild(s, i); }
    case SpuriousWakeup =>
  }

  lemma OwnerLeavesChild(s: State, wish: Wish, fails: bool)
    requires OwnerInv(s)
    ensures var s' := OwnerNext(s, wish, fails);
      s'.cause == s.cause && (s'.child == s.child || (s.child.Unborn? && s'.child.EntryLocking?))
  {
  }

  lemma CancellerLeavesChild(s: State, i: nat)
    requires i < |s.cancellers|
    ensures CancellerNext(s, i).child == s.child && CancellerNext(s, i).cause == s.cause
  {
  }

  lemma EntrySealsNothing(s: State, c: Cause)
    requires Entering(s.child)
    ensures !Sealed(s, c) && !Sealed(EntryNext(s), c)
  {
  }

  lemma ExitSealsNothing(s: State, c: Cause)
    requires Decided(s.child) && !c.Na?
    ensures Sealed(ExitNext(s), c) == Sealed(s, c)
  {
  }

  lemma {:induction false} SealedIff(n: nat, schedule: seq<Action>, c: Cause)
    requires !c.Na?
    ensures Sealed(Run(Init(n), schedule), c) <==> HasEnded(n, schedule, c)
  {
    if schedule != [] {
      var k := |schedule| - 1;
      SealedIff(n, schedule[..k], c);
      EarlierEndings(n, schedule, c);
      RunKeepsInv(n, schedule[..k]);
      NextSeals(Run(Init(n), schedule[..k]), schedule[k], c);
    }
  }

  /**
   * In every run, once the thread has exited its exit cause says how the thread function ended:
   * completed exactly if it returned, uncaught exception exactly if it threw, cancelled exactly
   * if it let a cancel signal out.
   */
  lemma CauseSaysHowItEnded(n: nat, schedule: seq<Action>)
    ensures var s := Run(Init(n), schedule);
      s.life.Exited? ==>
        && (s.cause.Completed? <==> HasEnded(n, schedule, Completed))
        && (s.cause.UncaughtException? <==> HasEnded(n, schedule, UncaughtException))
        && (s.cause.Cancelled? <==> HasEnded(n, schedule, Cancelled))
  {
    RunKeepsInv(n, schedule);
    SealedIff(n, schedule, Completed);
    SealedIff(n, schedule, UncaughtException);
    SealedIff(n, schedule, Cancelled);
  }

  // Cancelling.

  /** The k-th action is that of a cancel() that finds the thread not exited. */
  predicate Cancels(n: nat, schedule: seq<Action>, k: nat)
    requires k < |schedule|
  {
    var s, a := At(n, schedule, k), schedule[k];
    && !s.life.Exited?
    && ((a.OwnerStep? && s.owner.CancelStoring?)
        || (a.CancellerStep? && a.i < |s.cancellers| && s.cancellers[a.i].Storing?))
  }

  ghost predicate HasCancelled(n: nat, schedule: seq<Action>) {
    exists k :: 0 <= k < |schedule| && Cancels(n, schedule, k)
  }

  lemma SamePast(n: nat, schedule: seq<Action>, k: nat)
    requires k + 1 < |schedule|
    ensures Cancels(n, schedule[..|schedule| - 1], k) == Cancels(n, schedule, k)
  {
    assert schedule[..|schedule| - 1][..k] == schedule[..k];
  }

  lemma EarlierCancels(n: nat, schedule: seq<Action>)
    requires schedule != []
    ensures HasCancelled(n, schedule) <==>
      HasCancelled(n, schedule[..|schedule| - 1]) || Cancels(n, schedule, |schedule| - 1)
  {
    var earlier := schedule[..|schedule| - 1];
    if k :| 0 <= k < |earlier| && Cancels(n, earlier, k) {
      SamePast(n, schedule, k);
      assert Cancels(n, schedule, k);
    }
    if k :| 0 <= k < |schedule| && Cancels(n, schedule, k) {
      if k < |earlier| { SamePast(n, schedule, k); }
    }
  }

  lemma OwnerCancels(s: State, wish: Wish, fails: bool)
    ensures OwnerNext(s, wish, fails).cancelled <==> s.cancelled || (s.owner.CancelStoring? && !s.life.Exited?)
  {
  }

  lemma ChildCancelsNothing(s: State, deed: Deed, absorbs: bool)
    ensures ChildNext(s, deed, absorbs).cancelled == s.cancelled
  {
  }

  /** In every run a cancel is in effect exactly if some cancel() has found the thread not exited. */
  lemma {:induction false} CancelledIff(n: nat, schedule: seq<Action>)
    ensures Run(Init(n), schedule).cancelled <==> HasCancelled(n, schedule)
  {
    if schedule != [] {
      var k := |schedule| - 1;
      var s := Run(Init(n), schedule[..k]);
      CancelledIff(n, schedule[..k]);
      EarlierCancels(n, schedule);
      match schedule[k]
      case OwnerStep(wish, fails) => OwnerCancels(s, wish, fails);
      case ChildStep(deed, absorbs) => ChildCancelsNothing(s, deed, absorbs);
      case CancellerStep(i) =>
      case SpuriousWakeup =>
    }
  }

  /** A signal on its way was caused by a cancel. */
  predicate Signalled(s: State) {
    s.child.Throwing? || s.child == TestUnlocking(true) || Sealed(s, Cancelled)
  }

  lemma NextSignals(s: State, a: Action)
    requires ChildInv(s) && OwnerInv(s) && (Signalled(s) ==> s.cancelled)
    ensures Signalled(Next(s, a)) ==> Next(s, a).cancelled
  {
    NextSeals(s, a, Cancelled);
    NextGoesForward(s, a);
    match a
    case OwnerStep(wish, fails) => OwnerLeavesChild(s, wish, fails);
    case ChildStep(deed, absorbs) => if Entering(s.child) { EntrySealsNothing(s, Cancelled); }
    case CancellerStep(i) => if i < |s.cancellers| { CancellerLeavesChild(s, i); }
    case SpuriousWakeup =>
  }

  lemma {:induction false} SignalsAreCancels(n: nat, schedule: seq<Action>)
    ensures Signalled(Run(Init(n), schedule)) ==> Run(Init(n), schedule).cancelled
  {
    if schedule != [] {
      var k := |schedule| - 1;
      SignalsAreCancels(n, schedule[..k]);
      RunKeepsInv(n, schedule[..k]);
      NextSignals(Run(Init(n), schedule[..k]), schedule[k]);
    }
  }

  /**
   * In every run a thread that has exited without a cancel() having found it alive ended as its
   * function did: completed if that never threw.  A thread whose cause is cancelled was cancelled,
   * and test_cancel() never throws in one that was not.
   */
  lemma UncancelledEndsAsItsFunction(n: nat, schedule: seq<Action>)
    ensures var s := Run(Init(n), schedule);
      && (s.child.Throwing? || s.cause.Cancelled? ==> HasCancelled(n, schedule))
      && (s.life.Exited? && !HasCancelled(n, schedule) && !HasEnded(n, schedule, UncaughtException) ==>
            s.cause.Completed?)
  {
    RunKeepsInv(n, schedule);
    CauseSaysHowItEnded(n, schedule);
    SealedIff(n, schedule, Cancelled);
    CancelledIff(n, schedule);
    SignalsAreCancels(n, schedule);
  }
}
