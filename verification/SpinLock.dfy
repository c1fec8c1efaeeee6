/** The two implementations of the atomic counter primitives. */
module Atomics {

  /** OneStep adds and tests in one indivisible access; TwoStep adds, then reads again. */
  datatype Form = OneStep | TwoStep
}

/**
 * The spin lock, with one shared counter that starts at -1 and any number of threads.  An
 * action lets one thread make one access to the counter.  A run is any sequence of actions.
 */
module SpinLocks {
  import opened Atomics
  import opened Sums

  /** Where a thread stands in acquire() or release(). */
  datatype Pc =
    | Idle
    | Adding(timed: bool)       // about to increase the counter
    | Reading(timed: bool)      // two-step form: added, about to read the value
    | BackingOff(timed: bool)   // lost, about to take its increase back
    | Discarding(timed: bool)   // two-step form: took it back, about to read a value nobody uses
    | Checking                  // timed acquire, about to look at the timer
    | TimedOut                  // timed acquire returned false
    | Holding                   // acquire returned (true)
    | Settling                  // two-step form: released, about to read a value nobody uses

  datatype State = State(form: Form, counter: int, pcs: seq<Pc>)

  datatype Action =
    | Start(t: nat, timed: bool)
    | Step(t: nat, expired: bool)

  function Init(form: Form, n: nat): State {
    State(form, -1, seq(n, i => Idle))
  }

  /** What acquire() does with the value that atomic_increase tested. */
  function Tested(value: int, timed: bool): Pc {
    if value == 0 then Holding else BackingOff(timed)
  }

  function Retry(timed: bool): Pc {
    if timed then Checking else Adding(false)
  }

  function StepThread(s: State, t: nat, expired: bool): State
    requires t < |s.pcs|
  {
    match s.pcs[t]
    case Idle => s
    case Adding(timed) =>
      s.(counter := s.counter + 1,
         pcs := s.pcs[t := if s.form.OneStep? then Tested(s.counter + 1, timed) else Reading(timed)])
    case Reading(timed) => s.(pcs := s.pcs[t := Tested(s.counter, timed)])
    case BackingOff(timed) =>
      s.(counter := s.counter - 1, pcs := s.pcs[t := if s.form.OneStep? then Retry(timed) else Discarding(timed)])
    case Discarding(timed) => s.(pcs := s.pcs[t := Retry(timed)])
    case Checking => s.(pcs := s.pcs[t := if expired then TimedOut else Adding(true)])
    case TimedOut => s.(pcs := s.pcs[t := Idle])
    case Holding => s.(counter := s.counter - 1, pcs := s.pcs[t := if s.form.OneStep? then Idle else Settling])
    case Settling => s.(pcs := s.pcs[t := Idle])
  }

  function Next(s: State, a: Action): State {
    if a.t >= |s.pcs| then s
    else match a
      case Start(t, timed) => if s.pcs[t].Idle? then s.(pcs := s.pcs[t := Adding(timed)]) else s
      case Step(t, expired) => StepThread(s, t, expired)
  }

  function Run(s: State, schedule: seq<Action>): State {
    if schedule == [] then s else Next(Run(s, schedule[..|schedule| - 1]), schedule[|schedule| - 1])
  }

  /** One for a thread that has increased the counter and not yet taken that back. */
  function Weight(pc: Pc): nat {
    if pc.Reading? || pc.BackingOff? || pc.Holding? then 1 else 0
  }

  ghost predicate Inv(s: State) {
    && s.counter == Total(s.pcs, Weight) - 1
    && (s.form.OneStep? ==> forall i :: 0 <= i < |s.pcs| ==> !s.pcs[i].Reading?)
    && forall i, j :: 0 <= i < |s.pcs| && 0 <= j < |s.pcs| && s.pcs[i].Holding? && s.pcs[j].Holding? ==> i == j
  }

  /** Whoever finds the counter at 0 is the only thread that has increased it. */
  lemma SoleContributor(s: State, t: nat)
    requires t < |s.pcs| && Weight(s.pcs[t]) == 1
    requires Total(s.pcs, Weight) == 1
    ensures forall i :: 0 <= i < |s.pcs| && i != t ==> !s.pcs[i].Holding?
  {
    forall i | 0 <= i < |s.pcs| && i != t ensures !s.pcs[i].Holding? {
      if i < t { TotalPair(s.pcs, i, t, Weight); } else { TotalPair(s.pcs, t, i, Weight); }
    }
  }

  lemma {:induction false} NextKeepsInv(s: State, a: Action)
    requires Inv(s)
    ensures Inv(Next(s, a)) && |Next(s, a).pcs| == |s.pcs|
  {
    var s' := Next(s, a);
    if a.t < |s.pcs| {
      TotalUpdate(s.pcs, a.t, s'.pcs[a.t], Weight);
      assert s'.pcs == s.pcs[a.t := s'.pcs[a.t]];
      if s'.pcs[a.t].Holding? && !s.pcs[a.t].Holding? {
        SoleContributor(s', a.t);
      }
    }
  }

  lemma {:induction false} RunFromKeepsInv(s: State, schedule: seq<Action>)
    requires Inv(s)
    ensures Inv(Run(s, schedule)) && |Run(s, schedule).pcs| == |s.pcs|
  {
    if schedule != [] {
      RunFromKeepsInv(s, schedule[..|schedule| - 1]);
      NextKeepsInv(Run(s, schedule[..|schedule| - 1]), schedule[|schedule| - 1]);
    }
  }

  lemma RunKeepsInv(form: Form, n: nat, schedule: seq<Action>)
    ensures Inv(Run(Init(form, n), schedule)) && |Run(Init(form, n), schedule).pcs| == n
  {
    TotalZero(seq(n, i => Idle), Weight);
    RunFromKeepsInv(Init(form, n), schedule);
  }

  /**
   * In every run of either form, at most one thread holds the lock, and the counter is -1 plus
   * the number of threads that have increased it and not yet taken that back.  The counter
   * therefore stays within -1 .. n - 1 and a 32-bit int cannot overflow below 2^31 threads.
   */
  lemma MutualExclusion(form: Form, n: nat, schedule: seq<Action>)
    ensures var s := Run(Init(form, n), schedule);
      && |s.pcs| == n
      && s.counter == Total(s.pcs, Weight) - 1
      && -1 <= s.counter < n
      && (forall i, j :: 0 <= i < n && 0 <= j < n && s.pcs[i].Holding? && s.pcs[j].Holding? ==> i == j)
  {
    RunKeepsInv(form, n, schedule);
    TotalBound(Run(Init(form, n), schedule).pcs, Weight);
    if n == 0 {
      assert Run(Init(form, n), schedule).pcs == [];
    }
  }

  /** The counter is back at -1 exactly when nobody holds the lock or is between its two accesses. */
  lemma QuiescentIffMinusOne(form: Form, n: nat, schedule: seq<Action>)
    ensures var s := Run(Init(form, n), schedule);
      s.counter == -1 <==> forall i :: 0 <= i < |s.pcs| ==> Weight(s.pcs[i]) == 0
  {
    RunKeepsInv(form, n, schedule);
    TotalZero(Run(Init(form, n), schedule).pcs, Weight);
  }

  /**
   * A timed acquire that gave up leaves no trace: whatever else went on, if all other threads
   * stand where they stood before the call, the whole lock is as it was before the call.
   */
  lemma TimedOutLeavesNoTrace(form: Form, n: nat, before: seq<Action>, during: seq<Action>, t: nat)
    requires t < n
    requires
      var s := Run(Init(form, n), before);
      var s' := Run(Init(form, n), before + during);
      && |s.pcs| == |s'.pcs| == n
      && s.pcs[t].Idle? && s'.pcs[t].TimedOut? && s'.pcs[t := Idle] == s.pcs
    ensures Next(Run(Init(form, n), before + during), Step(t, false)) == Run(Init(form, n), before)
  {
    var s := Run(Init(form, n), before);
    var s' := Run(Init(form, n), before + during);
    RunKeepsInv(form, n, before);
    RunKeepsInv(form, n, before + during);
    RunKeepsForm(Init(form, n), before);
    RunKeepsForm(Init(form, n), before + during);
    TotalUpdate(s'.pcs, t, Idle, Weight);
  }

  lemma {:induction false} RunKeepsForm(s: State, schedule: seq<Action>)
    ensures Run(s, schedule).form == s.form
  {
    if schedule != [] {
      RunKeepsForm(s, schedule[..|schedule| - 1]);
    }
  }

  /** An attempt succeeds exactly when the counter it tests is 0, and then the lock was nobody's. */
  lemma AttemptSucceedsIffFree(form: Form, n: nat, schedule: seq<Action>, t: nat, expired: bool)
    requires t < n && |Run(Init(form, n), schedule).pcs| == n
    requires !Run(Init(form, n), schedule).pcs[t].Holding?
    ensures
      var s := Run(Init(form, n), schedule);
      var s' := Next(s, Step(t, expired));
      && |s'.pcs| == n
      && (s'.pcs[t].Holding? <==>
           if s.pcs[t].Reading? then s.counter == 0
           else form.OneStep? && s.pcs[t].Adding? && s.counter == -1)
      && (s'.pcs[t].Holding? ==> forall i :: 0 <= i < n ==> !s.pcs[i].Holding?)
  {
    var s := Run(Init(form, n), schedule);
    RunKeepsInv(form, n, schedule);
    RunKeepsForm(Init(form, n), schedule);
    NextKeepsInv(s, Step(t, expired));
    var s' := Next(s, Step(t, expired));
    if s'.pcs[t].Holding? {
      forall i | 0 <= i < n ensures !s.pcs[i].Holding? { assert i != t ==> s'.pcs[i] == s.pcs[i]; }
    }
  }

  // The timer.

  /** The answers thread t has after one more action, which may be a look at its timer. */
  function WithLook(looks: seq<bool>, s: State, a: Action, t: nat): seq<bool> {
    if a.t == t && a.Step? && t < |s.pcs| && s.pcs[t].Checking? then looks + [a.expired] else looks
  }

  /** The answers thread t has got from its timer, in order. */
  function Looks(s0: State, schedule: seq<Action>, t: nat): seq<bool> {
    if schedule == [] then []
    else
      var earlier := schedule[..|schedule| - 1];
      WithLook(Looks(s0, earlier, t), Run(s0, earlier), schedule[|schedule| - 1], t)
  }

  /** Answers got before, and then a timer's first k. */
  function AndThen(before: seq<bool>, timer: nat -> bool, k: nat): seq<bool> {
    if k == 0 then before else AndThen(before, timer, k - 1) + [timer(k - 1)]
  }

  lemma {:induction false} AndThenAre(before: seq<bool>, timer: nat -> bool, k: nat)
    ensures |AndThen(before, timer, k)| == |before| + k && AndThen(before, timer, k)[..|before|] == before
    ensures forall j :: 0 <= j < k ==> AndThen(before, timer, k)[|before| + j] == timer(j)
  {
    if k > 0 { AndThenAre(before, timer, k - 1); }
  }

  /** Of a number of looks only the last can have found the timer expired. */
  ghost predicate StoppedAt(timer: nat -> bool, looks: nat, expired: bool) {
    && (forall k: nat :: k + 1 < looks ==> !timer(k))
    && (expired <==> looks >= 1 && timer(looks - 1))
  }

  /** In every run a timed acquire has given up only if its last look found the timer expired. */
  lemma {:induction false} TimedOutOnlyIfExpired(form: Form, n: nat, schedule: seq<Action>, t: nat)
    requires t < n
    ensures var s, looks := Run(Init(form, n), schedule), Looks(Init(form, n), schedule, t);
      |s.pcs| == n && (s.pcs[t].TimedOut? ==> looks != [] && looks[|looks| - 1])
  {
    RunKeepsInv(form, n, schedule);
    if schedule != [] {
      TimedOutOnlyIfExpired(form, n, schedule[..|schedule| - 1], t);
      NextMovesOne(Run(Init(form, n), schedule[..|schedule| - 1]), schedule[|schedule| - 1]);
    }
  }

  predicate OthersOnly(schedule: seq<Action>, t: nat) {
    forall a :: a in schedule ==> a.t != t
  }

  lemma {:induction false} OthersLeavePlace(s: State, schedule: seq<Action>, t: nat)
    requires t < |s.pcs| && OthersOnly(schedule, t)
    ensures |Run(s, schedule).pcs| == |s.pcs| && Run(s, schedule).pcs[t] == s.pcs[t]
  {
    if schedule != [] {
      OthersLeavePlace(s, schedule[..|schedule| - 1], t);
      NextMovesOne(Run(s, schedule[..|schedule| - 1]), schedule[|schedule| - 1]);
    }
  }

  /**
   * From any state: a look at an expired timer gives up, and the caller is out of the lock; a look
   * at one that has not expired is followed, whatever the others do, by another increase.
   */
  lemma LookDecides(s: State, t: nat, others: seq<Action>, flag: bool)
    requires t < |s.pcs| && s.pcs[t].Checking? && OthersOnly(others, t)
    ensures Next(s, Step(t, true)).counter == s.counter && Next(Next(s, Step(t, true)), Step(t, flag)).pcs[t].Idle?
    ensures var m := Run(Next(s, Step(t, false)), others); Next(m, Step(t, flag)).counter == m.counter + 1
  {
    OthersLeavePlace(Next(s, Step(t, false)), others, t);
  }

  predicate Trying(pc: Pc) {
    pc == Adding(false) || pc == Reading(false) || pc == BackingOff(false) || pc == Discarding(false)
  }

  /** acquire() without a timer ends only with the lock held, by this thread alone. */
  lemma AcquireEndsHolding(form: Form, n: nat, schedule: seq<Action>, t: nat, a: Action)
    requires t < n && |Run(Init(form, n), schedule).pcs| == n && Trying(Run(Init(form, n), schedule).pcs[t])
    ensures var pcs := Next(Run(Init(form, n), schedule), a).pcs;
      && |pcs| == n && (Trying(pcs[t]) || pcs[t].Holding?)
      && (pcs[t].Holding? ==> forall i :: 0 <= i < n && i != t ==> !pcs[i].Holding?)
  {
    RunKeepsInv(form, n, schedule);
    NextKeepsInv(Run(Init(form, n), schedule), a);
    NextMovesOne(Run(Init(form, n), schedule), a);
  }

  lemma NextMovesOne(s: State, a: Action)
    ensures |Next(s, a).pcs| == |s.pcs| && Next(s, a).form == s.form
    ensures forall t :: 0 <= t < |s.pcs| && t != a.t ==> Next(s, a).pcs[t] == s.pcs[t]
  {
  }

  /** Where a decrease leaves the thread that made it. */
  function Decreased(pc: Pc): Pc {
    match pc
    case BackingOff(timed) => Retry(timed)
    case _ => Idle
  }

  /** Where the decrease itself leaves it: the two-step form has yet to read. */
  function Undone(form: Form, pc: Pc): Pc {
    if form.OneStep? then Decreased(pc) else if pc.BackingOff? then Discarding(pc.timed) else Settling
  }

  lemma AddSteps(s: State, t: nat, timed: bool)
    requires t < |s.pcs| && s.pcs[t] == Adding(timed)
    ensures Next(s, Step(t, false)) == s.(counter := s.counter + 1,
      pcs := s.pcs[t := if s.form.OneStep? then Tested(s.counter + 1, timed) else Reading(timed)])
  {
  }

  lemma ReadSteps(s: State, t: nat, timed: bool)
    requires t < |s.pcs| && s.pcs[t] == Reading(timed)
    ensures Next(s, Step(t, false)) == s.(pcs := s.pcs[t := Tested(s.counter, timed)])
  {
  }

  lemma DecreaseSteps(s: State, t: nat)
    requires t < |s.pcs| && (s.pcs[t].BackingOff? || s.pcs[t].Holding?)
    ensures Next(s, Step(t, false)) == s.(counter := s.counter - 1, pcs := s.pcs[t := Undone(s.form, s.pcs[t])])
  {
  }

  lemma DiscardSteps(s: State, t: nat, pc: Pc)
    requires t < |s.pcs| && (pc.BackingOff? || pc.Holding?) && s.pcs[t] == Undone(TwoStep, pc)
    ensures Next(s, Step(t, false)) == s.(pcs := s.pcs[t := Decreased(pc)])
  {
  }

  /** What a call of acquire(timer) came to: it may still be spinning when we stop looking. */
  datatype Outcome = Acquired | GaveUp | StillSpinning

  /**
   * The lock object.  The code works on counter alone.  places and schedule only note what was
   * done: where every thread stands, and every access so far.
   */
  class SpinLock {
    const form: Form
    var counter: int
    var places: seq<Pc>
    ghost const n: nat
    ghost var schedule: seq<Action>

    function View(): State
      reads this
    {
      State(form, counter, places)
    }

    /** Everything that has happened is a run of the step system. */
    ghost predicate Valid()
      reads this
    {
      |places| == n && View() == Run(Init(form, n), schedule)
    }

    /** The answers thread t has got from its timer. */
    ghost function LooksOf(t: nat): seq<bool>
      reads this
    {
      Looks(Init(form, n), schedule, t)
    }

    constructor (form: Form, n: nat)
      ensures Valid() && this.form == form && this.n == n && schedule == []
      ensures counter == -1 && forall t :: 0 <= t < n ==> places[t].Idle?
    {
      this.form, this.n := form, n;
      counter, places, schedule := -1, seq(n, i => Idle), [];
    }

    /** Note the access just made. */
    ghost method Note(a: Action)
      requires |places| == n && View() == Next(Run(Init(form, n), schedule), a)
      modifies this`schedule
      ensures Valid() && schedule == old(schedule) + [a]
      ensures forall t :: LooksOf(t) == WithLook(old(LooksOf(t)), Run(Init(form, n), old(schedule)), a, t)
    {
      assert (schedule + [a])[..|schedule|] == schedule;
      schedule := schedule + [a];
    }

    /** Any number of accesses and calls by the threads other than t. */
    method Others(t: nat)
      requires Valid() && t < n
      modifies this`counter, this`places, this`schedule
      ensures Valid() && old(schedule) <= schedule
      ensures places[t] == old(places)[t] && LooksOf(t) == old(LooksOf(t))
    {
      var rounds: nat :| 0 <= rounds;
      while rounds > 0
        invariant Valid() && old(schedule) <= schedule
        invariant places[t] == old(places)[t] && LooksOf(t) == old(LooksOf(t))
      {
        rounds := rounds - 1;
        var a: Action := *;
        if a.t != t {
          var s := Next(View(), a);
          NextMovesOne(View(), a);
          counter, places := s.counter, s.pcs;
          Note(a);
        }
      }
    }

    /** atomic_increase(), with the others at work before every access; value is what the caller tests. */
    method Increase(t: nat, timed: bool) returns (value: int)
      requires Valid() && t < n && places[t] == Adding(timed)
      modifies this`counter, this`places, this`schedule
      ensures Valid() && old(schedule) < schedule
      ensures places[t] == Tested(value, timed) && LooksOf(t) == old(LooksOf(t))
    {
      Others(t);
      AddSteps(View(), t, timed);
      counter := counter + 1;
      value := counter;
      places := places[t := if form.OneStep? then Tested(value, timed) else Reading(timed)];
      Note(Step(t, false));
      if form.TwoStep? {
        Others(t);
        ReadSteps(View(), t, timed);
        value := counter;
        places := places[t := Tested(value, timed)];
        Note(Step(t, false));
      }
    }

    /** atomic_decrease(), likewise; the two-step form reads a value nobody uses. */
    method Decrease(t: nat)
      requires Valid() && t < n && (places[t].BackingOff? || places[t].Holding?)
      modifies this`counter, this`places, this`schedule
      ensures Valid() && old(schedule) < schedule
      ensures places[t] == Decreased(old(places)[t]) && LooksOf(t) == old(LooksOf(t))
    {
      var pc := places[t];
      Others(t);
      DecreaseSteps(View(), t);
      counter := counter - 1;
      places := places[t := Undone(form, pc)];
      Note(Step(t, false));
      if form.TwoStep? {
        Others(t);
        DiscardSteps(View(), t, pc);
        places := places[t := Decreased(pc)];
        Note(Step(t, false));
      }
    }

    lemma HolderIsAlone(t: nat)
      requires Valid() && t < n && places[t].Holding?
      ensures forall i :: 0 <= i < n && i != t ==> !places[i].Holding?
    {
      RunKeepsInv(form, n, schedule);
    }

    /**
     * acquire(): increase and test, and while the value is not 0 take the increase back and try
     * again.  It returns only with this thread the sole holder; we stop looking after patience
     * failed attempts.
     */
    method Acquire(t: nat, patience: nat) returns (acquired: bool)
      requires Valid() && t < n && places[t].Idle?
      modifies this`counter, this`places, this`schedule
      ensures Valid() && old(schedule) + [Start(t, false)] <= schedule
      ensures acquired <==> places[t].Holding?
      ensures acquired ==> forall i :: 0 <= i < n && i != t ==> !places[i].Holding?
      ensures !acquired ==> places[t].BackingOff?
      ensures !acquired ==> |schedule| >= |old(schedule)| + 1 + 2 * patience
    {
      places := places[t := Adding(false)];
      Note(Start(t, false));
      var value := Increase(t, false);
      var k := 0;
      while value != 0 && k < patience
        invariant Valid() && old(schedule) + [Start(t, false)] <= schedule
        invariant places[t] == Tested(value, false)
        invariant k <= patience && |schedule| >= |old(schedule)| + 1 + 2 * k
        decreases patience - k
      {
        Decrease(t);
        value := Increase(t, false);
        k := k + 1;
      }
      acquired := value == 0;
      if acquired { HolderIsAlone(t); }
    }

    /** Act on the answer of timer.expired(): return to the caller, or go on. */
    method Looked(t: nat, expired: bool)
      requires Valid() && t < n && places[t].Checking?
      modifies this`counter, this`places, this`schedule
      ensures Valid() && old(schedule) < schedule
      ensures places[t] == if expired then Idle else Adding(true)
      ensures LooksOf(t) == old(LooksOf(t)) + [expired]
    {
      Others(t);
      places := places[t := if expired then TimedOut else Adding(true)];
      Note(Step(t, expired));
      if expired {
        Others(t);
        places := places[t := Idle];
        Note(Step(t, false));
      }
    }

    /** After a failed attempt: take it back, make the k-th look at the timer, and try again unless it has expired. */
    method TryAgain(t: nat, timer: nat -> bool, k: nat, ghost before: seq<bool>) returns (value: int)
      requires Valid() && t < n && places[t] == BackingOff(true) && LooksOf(t) == AndThen(before, timer, k)
      modifies this`counter, this`places, this`schedule
      ensures Valid() && old(schedule) < schedule
      ensures places[t] == if timer(k) then Idle else Tested(value, true)
      ensures LooksOf(t) == AndThen(before, timer, k + 1)
    {
      value := 0;
      Decrease(t);
      Looked(t, timer(k));
      if !timer(k) { value := Increase(t, true); }
    }

    /** The call of acquire(timer), and its first attempt. */
    method FirstTry(t: nat) returns (value: int)
      requires Valid() && t < n && places[t].Idle?
      modifies this`counter, this`places, this`schedule
      ensures Valid() && old(schedule) + [Start(t, true)] <= schedule
      ensures places[t] == Tested(value, true) && LooksOf(t) == old(LooksOf(t))
    {
      places := places[t := Adding(true)];
      Note(Start(t, true));
      value := Increase(t, true);
    }

    /** The loop of acquire(timer), after a first attempt that tested value. */
    method TryUntil(t: nat, first: int, timer: nat -> bool, patience: nat)
      returns (value: int, expired: bool, ghost looks: nat)
      requires Valid() && t < n && places[t] == Tested(first, true)
      modifies this`counter, this`places, this`schedule
      ensures Valid() && old(schedule) <= schedule
      ensures places[t] == if expired then Idle else Tested(value, true)
      ensures looks <= patience && LooksOf(t) == AndThen(old(LooksOf(t)), timer, looks)
      ensures StoppedAt(timer, looks, expired)
      ensures !expired && value != 0 ==> looks == patience
    {
      ghost var before := LooksOf(t);
      value, expired := first, false;
      var k := 0;
      while value != 0 && !expired && k < patience
        invariant Valid() && old(schedule) <= schedule
        invariant places[t] == if expired then Idle else Tested(value, true)
        invariant k <= patience && LooksOf(t) == AndThen(before, timer, k)
        invariant StoppedAt(timer, k, expired)
        decreases patience - k
      {
        expired := timer(k);
        value := TryAgain(t, timer, k, before);
        k := k + 1;
      }
      looks := k;
    }

    /**
     * acquire(timer): the same, but after each attempt taken back it looks at the timer, whose
     * answer to the k-th look is timer(k).  It gives up exactly at the first look that finds the
     * timer expired, and is then out of the lock; true leaves this thread the sole holder.
     */
    method AcquireTimed(t: nat, timer: nat -> bool, patience: nat) returns (outcome: Outcome, ghost looks: nat)
      requires Valid() && t < n && places[t].Idle?
      modifies this`counter, this`places, this`schedule
      ensures Valid() && old(schedule) + [Start(t, true)] <= schedule
      ensures outcome.Acquired? <==> places[t].Holding?
      ensures outcome.Acquired? ==> forall i :: 0 <= i < n && i != t ==> !places[i].Holding?
      ensures outcome.GaveUp? <==> places[t].Idle?
      ensures outcome.StillSpinning? <==> places[t].BackingOff?
      ensures looks <= patience && LooksOf(t) == AndThen(old(LooksOf(t)), timer, looks)
      ensures StoppedAt(timer, looks, outcome.GaveUp?)
      ensures outcome.StillSpinning? ==> looks == patience
    {
      var value := FirstTry(t);
      var expired;
      value, expired, looks := TryUntil(t, value, timer, patience);
      outcome := if expired then GaveUp else if value == 0 then Acquired else StillSpinning;
      if outcome.Acquired? { HolderIsAlone(t); }
    }

    /** release(): the decrease that gives the lock back. */
    method Release(t: nat)
      requires Valid() && t < n && places[t].Holding?
      modifies this`counter, this`places, this`schedule
      ensures Valid() && old(schedule) < schedule
      ensures places[t].Idle?
    {
      Decrease(t);
    }
  }
}
