/**
 * Once-only initialisation.  Any number of threads call run() any number of times on one
 * thread_once object; an action lets one thread make one access to shared memory.
 */
module ThreadOnce {
  import opened Atomics
  import opened Sums

  /** Where a thread stands in run_impl(). */
  datatype Pc =
    | Idle
    | Entering    // about to test done for the first time
    | Adding      // about to increase started
    | Reading     // two-step form: added, about to read started
    | Running     // inside the once routine
    | Storing     // the routine has returned, about to set done
    | Spinning    // about to test done in the waiting loop
    | Returned    // the call has returned

  /**
   * started and done are the fields of the object.  The other numbers are history: how often
   * the routine was started, how often it completed, how many callers were turned away.
   */
  datatype State = State(form: Form, started: int, done: bool, pcs: seq<Pc>,
                         starts: nat, completions: nat, losses: nat)

  datatype Action = Call(t: nat) | Step(t: nat)

  function Init(form: Form, n: nat): State {
    State(form, -1, false, seq(n, i => Idle), 0, 0, 0)
  }

  /** What run_impl() does with the value that atomic_increase tested. */
  function Tested(s: State, t: nat, value: int): State
    requires t < |s.pcs|
  {
    if value == 0 then s.(pcs := s.pcs[t := Running], starts := s.starts + 1)
    else s.(pcs := s.pcs[t := Spinning], losses := s.losses + 1)
  }

  function StepThread(s: State, t: nat): State
    requires t < |s.pcs|
  {
    match s.pcs[t]
    case Idle => s
    case Entering => s.(pcs := s.pcs[t := if s.done then Returned else Adding])
    case Adding =>
      var added := s.(started := s.started + 1);
      if s.form.OneStep? then Tested(added, t, added.started) else added.(pcs := s.pcs[t := Reading])
    case Reading => Tested(s, t, s.started)
    case Running => s.(pcs := s.pcs[t := Storing], completions := s.completions + 1)
    case Storing => s.(pcs := s.pcs[t := Returned], done := true)
    case Spinning => if s.done then s.(pcs := s.pcs[t := Returned]) else s
    case Returned => s
  }

  function Next(s: State, a: Action): State {
    if a.t >= |s.pcs| then s
    else match a
      case Call(t) => if s.pcs[t].Idle? || s.pcs[t].Returned? then s.(pcs := s.pcs[t := Entering]) else s
      case Step(t) => StepThread(s, t)
  }

  function Run(s: State, schedule: seq<Action>): State {
    if schedule == [] then s else Next(Run(s, schedule[..|schedule| - 1]), schedule[|schedule| - 1])
  }

  lemma {:induction false} RunSplit(s: State, first: seq<Action>, second: seq<Action>)
    ensures Run(s, first + second) == Run(Run(s, first), second)
    decreases |second|
  {
    if second == [] {
      assert first + second == first;
    } else {
      RunSplit(s, first, second[..|second| - 1]);
      assert (first + second)[..|first + second| - 1] == first + second[..|second| - 1];
    }
  }

  function ReadingWeight(pc: Pc): nat { if pc.Reading? then 1 else 0 }
  function WindowWeight(pc: Pc): nat { if pc.Running? || pc.Storing? then 1 else 0 }
  function StoringWeight(pc: Pc): nat { if pc.Storing? then 1 else 0 }

  /** The form's increase cannot leave all callers turned away. */
  predicate Sound(form: Form, n: nat) {
    form.OneStep? || n <= 1
  }

  /**
   * Every increase is accounted for: its caller has yet to look, won, or lost.  The one winner
   * is between winning and setting done until it has set done.
   */
  ghost predicate Books(s: State, reading: int, window: int, storing: int) {
    && s.started + 1 == reading + s.starts + s.losses
    && s.starts == window + (if s.done then 1 else 0) <= 1
    && s.completions == storing + (if s.done then 1 else 0)
    && (s.form.OneStep? ==> reading == 0)
    && (Sound(s.form, |s.pcs|) && s.losses > 0 ==> s.starts == 1)
  }

  ghost predicate Accounts(s: State) {
    Books(s, Total(s.pcs, ReadingWeight), Total(s.pcs, WindowWeight), Total(s.pcs, StoringWeight))
  }

  ghost predicate Places(s: State) {
    forall i :: 0 <= i < |s.pcs| ==>
      && (s.pcs[i].Returned? ==> s.done)
      && (s.pcs[i].Spinning? ==> s.losses > 0)
  }

  ghost predicate Inv(s: State) {
    Accounts(s) && Places(s)
  }

  lemma TotalsMove(s: State, t: nat, v: Pc)
    requires t < |s.pcs|
    ensures Total(s.pcs[t := v], ReadingWeight)
         == Total(s.pcs, ReadingWeight) + ReadingWeight(v) - ReadingWeight(s.pcs[t])
    ensures Total(s.pcs[t := v], WindowWeight)
         == Total(s.pcs, WindowWeight) + WindowWeight(v) - WindowWeight(s.pcs[t])
    ensures Total(s.pcs[t := v], StoringWeight)
         == Total(s.pcs, StoringWeight) + StoringWeight(v) - StoringWeight(s.pcs[t])
    ensures ReadingWeight(s.pcs[t]) <= Total(s.pcs, ReadingWeight) <= |s.pcs|
    ensures WindowWeight(s.pcs[t]) <= Total(s.pcs, WindowWeight)
    ensures StoringWeight(s.pcs[t]) <= Total(s.pcs, StoringWeight)
  {
    TotalUpdate(s.pcs, t, v, ReadingWeight);
    TotalUpdate(s.pcs, t, v, WindowWeight);
    TotalUpdate(s.pcs, t, v, StoringWeight);
    TotalAtLeast(s.pcs, t, ReadingWeight);
    TotalAtLeast(s.pcs, t, WindowWeight);
    TotalAtLeast(s.pcs, t, StoringWeight);
    TotalBound(s.pcs, ReadingWeight);
  }

  lemma StepKeepsBooks(s: State, a: Action, v: Pc, reading: nat, window: nat, storing: nat)
    requires Books(s, reading, window, storing) && a.t < |s.pcs|
    requires ReadingWeight(s.pcs[a.t]) <= reading <= |s.pcs| && WindowWeight(s.pcs[a.t]) <= window
    requires StoringWeight(s.pcs[a.t]) <= storing && v == Next(s, a).pcs[a.t]
    ensures Books(Next(s, a), reading + ReadingWeight(v) - ReadingWeight(s.pcs[a.t]),
                  window + WindowWeight(v) - WindowWeight(s.pcs[a.t]),
                  storing + StoringWeight(v) - StoringWeight(s.pcs[a.t]))
  {
  }

  lemma NextMovesOne(s: State, a: Action) returns (v: Pc)
    requires a.t < |s.pcs|
    ensures Next(s, a).pcs == s.pcs[a.t := v] && Next(s, a).form == s.form
  {
    v := Next(s, a).pcs[a.t];
  }

  lemma MoveKeepsAccounts(s: State, s': State, t: nat, v: Pc)
    requires t < |s.pcs| && s'.pcs == s.pcs[t := v]
    requires Books(s', Total(s.pcs, ReadingWeight) + ReadingWeight(v) - ReadingWeight(s.pcs[t]),
                   Total(s.pcs, WindowWeight) + WindowWeight(v) - WindowWeight(s.pcs[t]),
                   Total(s.pcs, StoringWeight) + StoringWeight(v) - StoringWeight(s.pcs[t]))
    ensures Accounts(s')
  {
    TotalsMove(s, t, v);
  }

  lemma NextKeepsAccounts(s: State, a: Action)
    requires Accounts(s)
    ensures Accounts(Next(s, a)) && |Next(s, a).pcs| == |s.pcs| && Next(s, a).form == s.form
  {
    if a.t < |s.pcs| {
      var v := NextMovesOne(s, a);
      TotalsMove(s, a.t, v);
      StepKeepsBooks(s, a, v, Total(s.pcs, ReadingWeight), Total(s.pcs, WindowWeight), Total(s.pcs, StoringWeight));
      MoveKeepsAccounts(s, Next(s, a), a.t, v);
    }
  }

  lemma NextKeepsPlaces(s: State, a: Action)
    requires Places(s)
    ensures Places(Next(s, a))
  {
  }

  lemma NextKeepsInv(s: State, a: Action)
    requires Inv(s)
    ensures Inv(Next(s, a)) && |Next(s, a).pcs| == |s.pcs| && Next(s, a).form == s.form
  {
    NextKeepsAccounts(s, a);
    NextKeepsPlaces(s, a);
  }

  lemma {:induction false} RunKeepsInv(s: State, schedule: seq<Action>)
    requires Inv(s)
    ensures Inv(Run(s, schedule)) && |Run(s, schedule).pcs| == |s.pcs| && Run(s, schedule).form == s.form
  {
    if schedule != [] {
      RunKeepsInv(s, schedule[..|schedule| - 1]);
      NextKeepsInv(Run(s, schedule[..|schedule| - 1]), schedule[|schedule| - 1]);
    }
  }

  lemma InitHasInv(form: Form, n: nat)
    ensures Inv(Init(form, n))
  {
    var pcs := Init(form, n).pcs;
    TotalZero(pcs, ReadingWeight);
    TotalZero(pcs, WindowWeight);
    TotalZero(pcs, StoringWeight);
  }

  /**
   * Safety, in every run of either form: the routine is started at most once, at most one
   * thread is between winning and setting done, and a call that has returned returned after
   * the routine had completed.
   */
  lemma StartedOnceAndReturnedAfterCompletion(form: Form, n: nat, schedule: seq<Action>)
    ensures var s := Run(Init(form, n), schedule);
      && s.completions <= s.starts <= 1
      && (s.done ==> s.completions == 1)
      && (forall i :: 0 <= i < |s.pcs| && s.pcs[i].Returned? ==> s.completions == 1 && s.done)
      && (forall i, j :: 0 <= i < j < |s.pcs| ==> WindowWeight(s.pcs[i]) + WindowWeight(s.pcs[j]) <= 1)
  {
    InitHasInv(form, n);
    RunKeepsInv(Init(form, n), schedule);
    var s := Run(Init(form, n), schedule);
    StoringWithinWindow(s.pcs);
    forall i, j | 0 <= i < j < |s.pcs| ensures WindowWeight(s.pcs[i]) + WindowWeight(s.pcs[j]) <= 1 {
      TotalPair(s.pcs, i, j, WindowWeight);
    }
  }

  lemma {:induction false} StoringWithinWindow(pcs: seq<Pc>)
    ensures Total(pcs, StoringWeight) <= Total(pcs, WindowWeight)
  {
    if pcs != [] {
      StoringWithinWindow(pcs[1..]);
    }
  }

  /** Accesses a call may still make, other than spinning, before it returns. */
  function Rank(pc: Pc): nat {
    match pc
    case Idle => 0
    case Entering => 6
    case Adding => 5
    case Reading => 4
    case Running => 3
    case Storing => 2
    case Spinning => 1
    case Returned => 0
  }

  lemma PlaceDescends(s: State, t: nat)
    requires t < |s.pcs|
    ensures var s' := Next(s, Step(t));
      s' == s || (|s'.pcs| == |s.pcs| && Rank(s'.pcs[t]) < Rank(s.pcs[t]))
  {
  }

  /** A step either is a futile test of done, or brings the calls closer to their return. */
  lemma StepDescends(s: State, t: nat)
    ensures Next(s, Step(t)) == s || Total(Next(s, Step(t)).pcs, Rank) < Total(s.pcs, Rank)
  {
    if t < |s.pcs| {
      PlaceDescends(s, t);
      var v := NextMovesOne(s, Step(t));
      TotalUpdate(s.pcs, t, v, Rank);
    }
  }

  /** With a sound increase, a caller that spins while done is false waits for the one winner. */
  lemma SpinnersHaveAWinner(s: State, i: nat) returns (w: nat)
    requires Inv(s) && Sound(s.form, |s.pcs|)
    requires i < |s.pcs| && s.pcs[i].Spinning? && !s.done
    ensures w < |s.pcs| && WindowWeight(s.pcs[w]) == 1
    ensures forall j :: 0 <= j < |s.pcs| && WindowWeight(s.pcs[j]) == 1 ==> j == w
  {
    w := TotalWitness(s.pcs, WindowWeight);
    forall j | 0 <= j < |s.pcs| && WindowWeight(s.pcs[j]) == 1 ensures j == w {
      if j < w { TotalPair(s.pcs, j, w, WindowWeight); }
      if w < j { TotalPair(s.pcs, w, j, WindowWeight); }
    }
  }

  /**
   * In every run with a sound increase: whenever a caller spins and done is false, exactly one
   * thread is between winning and setting done.
   */
  lemma WhoeverSpinsWaitsForOneWinner(form: Form, n: nat, schedule: seq<Action>, i: nat)
    requires Sound(form, n) && i < |Run(Init(form, n), schedule).pcs|
    requires Run(Init(form, n), schedule).pcs[i].Spinning? && !Run(Init(form, n), schedule).done
    ensures var pcs := Run(Init(form, n), schedule).pcs;
      exists w :: 0 <= w < |pcs| && WindowWeight(pcs[w]) == 1
               && forall j :: 0 <= j < |pcs| && WindowWeight(pcs[j]) == 1 ==> j == w
  {
    InitHasInv(form, n);
    RunKeepsInv(Init(form, n), schedule);
    var w := SpinnersHaveAWinner(Run(Init(form, n), schedule), i);
  }

  /** A caller waits, everyone who has looked has lost, and everyone who will look will lose. */
  ghost predicate Doomed(s: State) {
    && !s.done
    && s.started >= 1
    && (forall i :: 0 <= i < |s.pcs| ==> WindowWeight(s.pcs[i]) == 0)
    && exists i :: 0 <= i < |s.pcs| && s.pcs[i].Spinning?
  }

  /** A doomed object stays doomed whatever its callers do: no call on it ever returns again. */
  lemma {:induction false} DoomedForever(s: State, schedule: seq<Action>)
    requires Doomed(s) && Inv(s)
    ensures Doomed(Run(s, schedule))
    ensures forall i :: 0 <= i < |Run(s, schedule).pcs| ==> !Run(s, schedule).pcs[i].Returned?
  {
    RunKeepsInv(s, schedule);
    if schedule != [] {
      var earlier, a := Run(s, schedule[..|schedule| - 1]), schedule[|schedule| - 1];
      DoomedForever(s, schedule[..|schedule| - 1]);
      var i :| 0 <= i < |earlier.pcs| && earlier.pcs[i].Spinning?;
      assert Next(earlier, a).pcs[i].Spinning?;
    }
  }

  lemma SoundIsNeverDoomed(s: State)
    requires Inv(s) && Sound(s.form, |s.pcs|)
    ensures !Doomed(s)
  {
    if Doomed(s) {
      var i :| 0 <= i < |s.pcs| && s.pcs[i].Spinning?;
      var w := SpinnersHaveAWinner(s, i);
      assert false;
    }
  }

  /** Two callers of the two-step form both add before either reads: nobody sees 0. */
  function CollidingCalls(): seq<Action> {
    [Call(0), Call(1), Step(0), Step(1), Step(0), Step(1), Step(0), Step(1)]
  }

  lemma CollidingCallsDoom(n: nat)
    requires n >= 2
    ensures Doomed(Run(Init(TwoStep, n), CollidingCalls()))
  {
    var c, s := CollidingCalls(), Init(TwoStep, n);
    forall k | 0 <= k < 8 ensures Run(s, c[..k + 1]) == Next(Run(s, c[..k]), c[k]) {
      assert c[..k + 1][..k] == c[..k];
    }
    assert c[..8] == c;
    assert Run(s, c[..0]) == s;
    var s2 := Run(s, c[..2]);
    assert s2 == s.(pcs := s.pcs[0 := Entering][1 := Entering]) by { assert Run(s, c[..1]) == Next(s, c[0]); }
    var s4 := Run(s, c[..4]);
    assert s4 == s.(pcs := s2.pcs[0 := Adding][1 := Adding]) by { assert Run(s, c[..3]) == Next(s2, c[2]); }
    var s6 := Run(s, c[..6]);
    assert s6 == s.(pcs := s4.pcs[0 := Reading][1 := Reading], started := 1) by {
      assert Run(s, c[..5]) == Next(s4, c[4]);
    }
    var s8 := Run(s, c[..8]);
    assert s8 == s.(pcs := s6.pcs[0 := Spinning][1 := Spinning], started := 1, losses := 2) by {
      assert Run(s, c[..7]) == Next(s6, c[6]);
    }
    assert s8.pcs[0].Spinning?;
  }

  ghost predicate NeverDoomed(form: Form, n: nat) {
    forall schedule: seq<Action> :: !Doomed(Run(Init(form, n), schedule))
  }

  /** No run leaves callers waiting for ever, exactly when the form adds and tests in one step or one thread calls. */
  lemma NeverDoomedIffSound(form: Form, n: nat)
    ensures NeverDoomed(form, n) <==> Sound(form, n)
  {
    InitHasInv(form, n);
    if Sound(form, n) {
      forall schedule ensures !Doomed(Run(Init(form, n), schedule)) {
        RunKeepsInv(Init(form, n), schedule);
        SoundIsNeverDoomed(Run(Init(form, n), schedule));
      }
    } else {
      CollidingCallsDoom(n);
      assert Doomed(Run(Init(form, n), CollidingCalls()));
    }
  }

  /** While some call has not returned, some thread's step is not futile. */
  lemma SomeStepHelps(s: State) returns (t: nat)
    requires Inv(s) && Sound(s.form, |s.pcs|) && Total(s.pcs, Rank) > 0
    ensures t < |s.pcs| && Next(s, Step(t)) != s
  {
    t := TotalWitness(s.pcs, Rank);
    if s.pcs[t].Spinning? && !s.done {
      t := SpinnersHaveAWinner(s, t);
    }
    assert Next(s, Step(t)).pcs[t] != s.pcs[t];
  }

  /** Each thread named in the order makes one access, in that order. */
  function Steps(order: seq<nat>): seq<Action> {
    seq(|order|, i requires 0 <= i < |order| => Step(order[i]))
  }

  lemma {:induction false} StepsOnlyDescend(s: State, order: seq<nat>)
    ensures Run(s, Steps(order)) == s || Total(Run(s, Steps(order)).pcs, Rank) < Total(s.pcs, Rank)
  {
    if order != [] {
      var k := |order| - 1;
      assert Steps(order)[..k] == Steps(order[..k]);
      StepsOnlyDescend(s, order[..k]);
      StepDescends(Run(s, Steps(order[..k])), order[k]);
    }
  }

  lemma StepsSplit(s: State, order: seq<nat>, k: nat)
    requires k < |order|
    ensures Run(s, Steps(order)) == Run(Next(Run(s, Steps(order[..k])), Step(order[k])), Steps(order[k + 1..]))
  {
    var upTo := Steps(order[..k]) + [Step(order[k])];
    assert upTo[..k] == Steps(order[..k]);
    assert Steps(order) == upTo + Steps(order[k + 1..]);
    RunSplit(s, upTo, Steps(order[k + 1..]));
  }

  predicate Covers(order: seq<nat>, n: nat) {
    forall t: nat :: t < n ==> t in order
  }

  /** A round in which every thread moves at least once brings the calls closer to their return. */
  lemma RoundDescends(s: State, order: seq<nat>)
    requires Inv(s) && Sound(s.form, |s.pcs|) && Total(s.pcs, Rank) > 0
    requires Covers(order, |s.pcs|)
    ensures Total(Run(s, Steps(order)).pcs, Rank) < Total(s.pcs, Rank)
  {
    var t := SomeStepHelps(s);
    assert t in order;
    var k: nat :| k < |order| && order[k] == t;
    var p := Run(s, Steps(order[..k]));
    StepsSplit(s, order, k);
    StepsOnlyDescend(s, order[..k]);
    StepDescends(p, t);
    StepsOnlyDescend(Next(p, Step(t)), order[k + 1..]);
  }

  function Rounds(s: State, orders: seq<seq<nat>>): State
    decreases |orders|
  {
    if orders == [] then s else Rounds(Run(s, Steps(orders[0])), orders[1..])
  }

  lemma {:induction false} RoundsExhaust(s: State, orders: seq<seq<nat>>)
    requires Inv(s) && Sound(s.form, |s.pcs|)
    requires forall order :: order in orders ==> Covers(order, |s.pcs|)
    requires |orders| >= Total(s.pcs, Rank)
    ensures Total(Rounds(s, orders).pcs, Rank) == 0
    decreases |orders|
  {
    if orders != [] {
      var s' := Run(s, Steps(orders[0]));
      RunKeepsInv(s, Steps(orders[0]));
      if Total(s.pcs, Rank) > 0 {
        RoundDescends(s, orders[0]);
      } else {
        StepsOnlyDescend(s, orders[0]);
      }
      RoundsExhaust(s', orders[1..]);
    }
  }

  lemma {:induction false} RankBound(pcs: seq<Pc>)
    ensures Total(pcs, Rank) <= 6 * |pcs|
  {
    if pcs != [] {
      RankBound(pcs[1..]);
    }
  }

  /**
   * Progress, given a sound increase and a routine that returns: after any run at all, six
   * rounds per thread - each round any order in which every thread moves at least once - bring
   * every call to its return.
   */
  lemma AllCallsReturn(form: Form, n: nat, schedule: seq<Action>, orders: seq<seq<nat>>)
    requires Sound(form, n) && |orders| >= 6 * n && forall order :: order in orders ==> Covers(order, n)
    ensures var s := Rounds(Run(Init(form, n), schedule), orders);
      forall i :: 0 <= i < |s.pcs| ==> s.pcs[i].Idle? || s.pcs[i].Returned?
  {
    InitHasInv(form, n);
    RunKeepsInv(Init(form, n), schedule);
    RankBound(Run(Init(form, n), schedule).pcs);
    RoundsExhaust(Run(Init(form, n), schedule), orders);
    TotalZero(Rounds(Run(Init(form, n), schedule), orders).pcs, Rank);
  }

  /**
   * The once object.  The code works on started and done alone.  The other fields only note
   * what was done: where every thread stands, the counts, and every access so far.
   */
  class OnceFlag {
    const form: Form
    var started: int
    var done: bool
    var places: seq<Pc>
    var starts: nat
    var completions: nat
    var losses: nat
    ghost const n: nat
    ghost var schedule: seq<Action>

    function View(): State
      reads this
    {
      State(form, started, done, places, starts, completions, losses)
    }

    /** Everything that has happened is a run of the step system. */
    ghost predicate Valid()
      reads this
    {
      |places| == n && View() == Run(Init(form, n), schedule)
    }

    constructor (form: Form, n: nat)
      ensures Valid() && this.form == form && this.n == n && schedule == []
      ensures started == -1 && !done && forall t :: 0 <= t < n ==> places[t].Idle?
    {
      this.form, this.n := form, n;
      started, done, places, schedule := -1, false, seq(n, i => Idle), [];
      starts, completions, losses := 0, 0, 0;
    }

    /** Note the access just made. */
    ghost method Note(a: Action)
      requires |places| == n && View() == Next(Run(Init(form, n), schedule), a)
      modifies this`schedule
      ensures Valid() && schedule == old(schedule) + [a]
    {
      assert (schedule + [a])[..|schedule|] == schedule;
      schedule := schedule + [a];
    }

    /** Any number of accesses and calls by the threads other than t. */
    method Others(t: nat)
      requires Valid() && t < n
      modifies this
      ensures Valid() && old(schedule) <= schedule
      ensures places[t] == old(places)[t]
    {
      var rounds: nat :| 0 <= rounds;
      while rounds > 0
        invariant Valid() && old(schedule) <= schedule
        invariant places[t] == old(places)[t]
      {
        rounds := rounds - 1;
        var call: bool, who: nat := *, *;
        if who != t && who < |places| {
          var a := if call then Call(who) else Step(who);
          var s := Next(View(), a);
          ghost var v := NextMovesOne(View(), a);
          started, done, places := s.started, s.done, s.pcs;
          starts, completions, losses := s.starts, s.completions, s.losses;
          Note(a);
        }
      }
    }

    /** Note what the tested value makes of the caller. */
    method Count(t: nat, value: int)
      requires t < |places|
      modifies this`places, this`starts, this`losses
      ensures View() == Tested(old(View()), t, value)
    {
      if value == 0 {
        places, starts := places[t := Running], starts + 1;
      } else {
        places, losses := places[t := Spinning], losses + 1;
      }
    }

    /** atomic_increase(started), with the others at work before every access; value is what the caller tests. */
    method Increase(t: nat) returns (value: int)
      requires Valid() && t < n && places[t].Adding?
      modifies this
      ensures Valid() && old(schedule) < schedule
      ensures places[t] == if value == 0 then Running else Spinning
    {
      Others(t);
      started := started + 1;
      value := started;
      if form.OneStep? {
        Count(t, value);
        Note(Step(t));
      } else {
        places := places[t := Reading];
        Note(Step(t));
        Others(t);
        value := started;
        Count(t, value);
        Note(Step(t));
      }
    }

    /** Read done, to return if it is set and else to go on at a place. */
    method LookAtDone(t: nat) returns (seen: bool)
      requires Valid() && t < n && (places[t].Entering? || places[t].Spinning?)
      modifies this
      ensures Valid() && old(schedule) < schedule
      ensures places[t] == if seen then Returned else if old(places)[t].Entering? then Adding else Spinning
      ensures seen == done
    {
      var pc := places[t];
      Others(t);
      seen := done;
      places := places[t := if seen then Returned else if pc.Entering? then Adding else Spinning];
      Note(Step(t));
    }

    /** Call the once routine, then set done. */
    method RunRoutine(t: nat)
      requires Valid() && t < n && places[t].Running?
      modifies this
      ensures Valid() && old(schedule) < schedule
      ensures places[t].Returned?
    {
      Others(t);
      completions := completions + 1;
      places := places[t := Storing];
      Note(Step(t));
      Others(t);
      done := true;
      places := places[t := Returned];
      Note(Step(t));
    }

    /**
     * run_impl(): test done; if it is not set, increase started, and the caller that made it 0
     * runs the routine and sets done while the others spin until it is set.  A call that returns
     * finds the routine started and completed exactly once; we stop looking after patience tests
     * of done in vain.
     */
    method RunImpl(t: nat, patience: nat) returns (returned: bool)
      requires Valid() && t < n && (places[t].Idle? || places[t].Returned?)
      modifies this
      ensures Valid() && old(schedule) + [Call(t)] <= schedule
      ensures returned ==> places[t].Returned? && done && completions == 1 && starts == 1
      ensures !returned ==> places[t].Spinning? && !done && |schedule| >= |old(schedule)| + 4 + patience
    {
      places := places[t := Entering];
      Note(Call(t));
      var seen := LookAtDone(t);
      if !seen {
        var value := Increase(t);
        if value == 0 {
          RunRoutine(t);
        } else {
          var k := 0;
          seen := LookAtDone(t);
          while !seen && k < patience
            invariant Valid() && old(schedule) + [Call(t)] <= schedule
            invariant places[t] == (if seen then Returned else Spinning) && seen == done
            invariant k <= patience && |schedule| >= |old(schedule)| + 4 + k
            decreases patience - k
          {
            seen := LookAtDone(t);
            k := k + 1;
          }
          if !seen { return false; }
        }
      }
      ReturnedIsComplete(t);
      return true;
    }

    lemma ReturnedIsComplete(t: nat)
      requires Valid() && t < n && places[t].Returned?
      ensures done && completions == 1 && starts == 1
    {
      StartedOnceAndReturnedAfterCompletion(form, n, schedule);
    }
  }
}
