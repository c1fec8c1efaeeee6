/** Exactly when every instance() call returns: the condition that progress needs cannot be done without. */
module SingletonReturns {
  import opened Atomics
  import opened ExitSpec
  import opened SingletonOrder
  import opened SingletonProgress
  import opened SingletonRuns
  import opened Singletons
  import Once = ThreadOnce

  /** As many rounds as the bound, in whatever orders, bring every call in progress to its return. */
  ghost predicate QuietBy(s: State, n: nat, bound: nat) {
    forall orders: seq<seq<nat>> ::
      |orders| >= bound && (forall order :: order in orders ==> Once.Covers(order, n)) ==> Quiet(Rounds(s, orders))
  }

  ghost predicate Returns(s: State, n: nat) {
    exists bound: nat :: QuietBy(s, n, bound)
  }

  ghost predicate AlwaysReturn(form: Form, n: nat, classes: seq<Class>) {
    forall schedule :: Returns(Run(Init(form, n, classes), schedule), n)
  }

  ghost predicate AllBuildable(classes: seq<Class>) {
    forall x: nat :: x < |classes| ==> Buildable(classes, x)
  }

  // The condition is enough.

  lemma {:induction false} RankedUpTo(classes: seq<Class>, k: nat) returns (rank: seq<nat>)
    requires AllBuildable(classes) && k <= |classes|
    ensures Ranks(classes, rank) && forall x :: 0 <= x < k ==> rank[x] > 0
  {
    if k == 0 {
      rank := seq(|classes|, i => 0);
    } else {
      var a := RankedUpTo(classes, k - 1);
      assert Buildable(classes, k - 1);
      var b: seq<nat> :| Ranks(classes, b) && k - 1 < |b| && b[k - 1] > 0;
      rank := MergedRanks(classes, a, b);
    }
  }

  lemma {:induction false} StepsKeepInv(s: State, order: seq<nat>)
    requires Inv(s)
    ensures Inv(Steps(s, order)) && Steps(s, order).classes == s.classes && |Steps(s, order).stacks| == |s.stacks|
    decreases |order|
  {
    if order != [] {
      NextKeepsInv(s, Step(order[0]));
      NextKeepsFrame(s, Step(order[0]));
      StepsKeepInv(Next(s, Step(order[0])), order[1..]);
    }
  }

  lemma {:induction false} RoundsKeepInv(s: State, orders: seq<seq<nat>>)
    requires Inv(s)
    ensures Inv(Rounds(s, orders)) && Rounds(s, orders).classes == s.classes
    ensures |Rounds(s, orders).stacks| == |s.stacks|
    decreases |orders|
  {
    if orders != [] {
      StepsKeepInv(s, orders[0]);
      RoundsKeepInv(Steps(s, orders[0]), orders[1..]);
    }
  }

  lemma FramesAreClasses(classes: seq<Class>, stack: seq<Frame>)
    requires StackOk(classes, stack)
    ensures stack != [] ==> |classes| > 0
  {
    if stack != [] {
      assert stack[0].id < |classes|;
    }
  }

  /** With no thread or no class there is nothing to call. */
  lemma NothingToCall(s: State)
    requires Inv(s) && (|s.stacks| == 0 || |s.classes| == 0)
    ensures Quiet(s)
  {
    forall t | 0 <= t < |s.stacks| ensures s.stacks[t] == [] {
      assert ThreadOk(s.classes, s.stacks[t], Column(s.onces, t));
      FramesAreClasses(s.classes, s.stacks[t]);
    }
  }

  lemma TriviallyReturn(form: Form, n: nat, classes: seq<Class>)
    requires ValidClasses(classes) && (n == 0 || |classes| == 0)
    ensures AlwaysReturn(form, n, classes)
  {
    forall schedule ensures Returns(Run(Init(form, n, classes), schedule), n) {
      InitHasInv(form, n, classes);
      RunKeepsInv(Init(form, n, classes), schedule);
      var s := Run(Init(form, n, classes), schedule);
      forall orders: seq<seq<nat>> ensures Quiet(Rounds(s, orders)) {
        RoundsKeepInv(s, orders);
        NothingToCall(Rounds(s, orders));
      }
      assert QuietBy(s, n, 0);
    }
  }

  lemma SoundlyReturn(form: Form, n: nat, classes: seq<Class>, schedule: seq<Action>) returns (bound: nat)
    requires ValidClasses(classes) && Once.Sound(form, n) && AllBuildable(classes)
    ensures QuietBy(Run(Init(form, n, classes), schedule), n, bound)
  {
    var rank := RankedUpTo(classes, |classes|);
    bound := Work(Run(Init(form, n, classes), schedule), rank);
    forall orders: seq<seq<nat>> | |orders| >= bound && forall order :: order in orders ==> Once.Covers(order, n)
      ensures Quiet(Rounds(Run(Init(form, n, classes), schedule), orders))
    {
      AllInstancesReturn(form, n, classes, rank, schedule, orders);
    }
  }

  // It is needed: a class that cannot be built is waited for for ever.

  ghost predicate WaitsInVain(s: State, x: nat) {
    && Inv(s) && |s.stacks| >= 1 && s.stacks[0] != [] && s.stacks[0][0].id == x && !Buildable(s.classes, x)
  }

  lemma VainStays(s: State, x: nat, t: nat)
    requires WaitsInVain(s, x)
    ensures WaitsInVain(Next(s, Step(t)), x)
  {
    NextKeepsInv(s, Step(t));
    NextKeepsFrame(s, Step(t));
    if t == 0 {
      BottomAfter(s, 0);
      if x in s.regs { RegisteredIsBuildable(s, x); }
    } else if t < |s.stacks| {
      OthersStand(s, t, 0);
    }
  }

  lemma {:induction false} VainForSteps(s: State, x: nat, order: seq<nat>)
    requires WaitsInVain(s, x)
    ensures WaitsInVain(Steps(s, order), x)
    decreases |order|
  {
    if order != [] {
      VainStays(s, x, order[0]);
      VainForSteps(Next(s, Step(order[0])), x, order[1..]);
    }
  }

  lemma {:induction false} VainForever(s: State, x: nat, orders: seq<seq<nat>>)
    requires WaitsInVain(s, x)
    ensures WaitsInVain(Rounds(s, orders), x)
    decreases |orders|
  {
    if orders != [] {
      VainForSteps(s, x, orders[0]);
      VainForever(Steps(s, orders[0]), x, orders[1..]);
    }
  }

  /** Rounds in which every thread steps once. */
  function Fair(n: nat, bound: nat): seq<seq<nat>> {
    seq(bound, k => Numbers(n))
  }

  lemma FairCovers(n: nat, bound: nat)
    ensures |Fair(n, bound)| == bound && forall order :: order in Fair(n, bound) ==> Once.Covers(order, n)
  {
    forall t: nat | t < n ensures t in Numbers(n) {
      assert Numbers(n)[t] == t;
    }
  }

  lemma AskFor(form: Form, n: nat, classes: seq<Class>, x: nat) returns (s: State)
    requires ValidClasses(classes) && n >= 1 && x < |classes| && !Buildable(classes, x)
    ensures s == Run(Init(form, n, classes), [Enter(0, x)]) && WaitsInVain(s, x) && |s.stacks| == n
  {
    var s0 := Init(form, n, classes);
    InitHasInv(form, n, classes);
    NextKeepsInv(s0, Enter(0, x));
    RunSnoc(s0, [], Enter(0, x));
    assert [] + [Enter(0, x)] == [Enter(0, x)];
    s := Next(s0, Enter(0, x));
    assert s.stacks[0] == [] + [Frame(x, Entering)];
  }

  lemma UnbuildableWaits(form: Form, n: nat, classes: seq<Class>, x: nat)
    requires ValidClasses(classes) && n >= 1 && x < |classes| && !Buildable(classes, x)
    ensures !AlwaysReturn(form, n, classes)
  {
    var s := AskFor(form, n, classes, x);
    forall bound: nat ensures !QuietBy(s, n, bound) {
      FairCovers(n, bound);
      VainForever(s, x, Fair(n, bound));
    }
  }

  // Nor can a sound increase be done without.

  ghost predicate Stuck(s: State, x: nat) {
    && Inv(s) && |s.stacks| >= 1 && x < |s.onces| && Once.Doomed(s.onces[x])
    && s.stacks[0] == [Frame(x, Entering)] && s.onces[x].pcs[0].Spinning?
  }

  lemma DoomStays(once: Once.State, a: Once.Action)
    requires Once.Doomed(once) && Once.Inv(once)
    ensures Once.Doomed(Once.Next(once, a))
  {
    assert [a][..0] == [];
    assert Once.Run(once, [a]) == Once.Next(once, a);
    Once.DoomedForever(once, [a]);
  }

  lemma StuckStays(s: State, x: nat, t: nat)
    requires Stuck(s, x)
    ensures Stuck(Next(s, Step(t)), x)
  {
    NextKeepsInv(s, Step(t));
    NextKeepsFrame(s, Step(t));
    if t == 0 {
      SpinsOn(s, x);
    } else if t < |s.stacks| && s.stacks[t] != [] && Top(s.stacks[t]).id < |s.classes| {
      OthersStand(s, t, 0);
      assert Column(Next(s, Step(t)).onces, 0)[x] == Column(s.onces, 0)[x];
      var i, a := OncesAfter(s, t);
      DoomStays(s.onces[x], a);
    }
  }

  lemma SpinsOn(s: State, x: nat)
    requires Stuck(s, x)
    ensures Next(s, Step(0)) == s
  {
    assert Once.Next(s.onces[x], Once.Step(0)) == s.onces[x];
    assert s.onces[x := s.onces[x]] == s.onces;
  }

  lemma {:induction false} StuckForSteps(s: State, x: nat, order: seq<nat>)
    requires Stuck(s, x)
    ensures Stuck(Steps(s, order), x)
    decreases |order|
  {
    if order != [] {
      StuckStays(s, x, order[0]);
      StuckForSteps(Next(s, Step(order[0])), x, order[1..]);
    }
  }

  lemma {:induction false} StuckForever(s: State, x: nat, orders: seq<seq<nat>>)
    requires Stuck(s, x)
    ensures Stuck(Rounds(s, orders), x)
    decreases |orders|
  {
    if orders != [] {
      StuckForSteps(s, x, orders[0]);
      StuckForever(Steps(s, orders[0]), x, orders[1..]);
    }
  }

  /** An idle thread comes to run() of class x. */
  lemma EnterMeets(s: State, t: nat, x: nat)
    requires Sized(s) && t < |s.stacks| && s.stacks[t] == [] && x < |s.onces|
    ensures Next(s, Enter(t, x)) == s.(onces := s.onces[x := Once.Next(s.onces[x], Once.Call(t))],
                                       stacks := s.stacks[t := [Frame(x, Entering)]])
  {
    assert [] + [Frame(x, Entering)] == [Frame(x, Entering)];
  }

  /** It goes on in run() without winning. */
  lemma StepMeets(s: State, t: nat, x: nat)
    requires Sized(s) && t < |s.stacks| && s.stacks[t] == [Frame(x, Entering)] && x < |s.onces|
    requires !s.onces[x].pcs[t].Returned?
    requires var once := Once.Next(s.onces[x], Once.Step(t)); |once.pcs| == |s.stacks| && !once.pcs[t].Running?
    ensures Next(s, Step(t)) == s.(onces := s.onces[x := Once.Next(s.onces[x], Once.Step(t))])
  {
  }

  /** Class x when two threads have met in run(). */
  function Meeting(n: nat, a: Once.Pc, b: Once.Pc, started: int, losses: nat): Once.State
    requires n >= 2
  {
    Once.Init(TwoStep, n).(pcs := Once.Init(TwoStep, n).pcs[0 := a][1 := b], started := started, losses := losses)
  }

  /** Threads 0 and 1 in run() of class x. */
  function Met(s: State, x: nat, once: Once.State): State
    requires x < |s.onces| && |s.stacks| >= 2
  {
    s.(onces := s.onces[x := once], stacks := s.stacks[0 := [Frame(x, Entering)]][1 := [Frame(x, Entering)]])
  }

  lemma MetSteps(s0: State, before: seq<Action>, s: State, x: nat, once: Once.State, t: nat)
    returns (after: seq<Action>)
    requires Sized(s) && x < |s.onces| && |s.stacks| >= 2 && |once.pcs| == |s.stacks| && t < 2
    requires Run(s0, before) == Met(s, x, once) && !once.pcs[t].Returned?
    requires var once' := Once.Next(once, Once.Step(t)); |once'.pcs| == |once.pcs| && !once'.pcs[t].Running?
    ensures Run(s0, after) == Met(s, x, Once.Next(once, Once.Step(t)))
  {
    after := before + [Step(t)];
    RunSnoc(s0, before, Step(t));
    StepMeets(Met(s, x, once), t, x);
  }

  lemma TwoMeet(n: nat, classes: seq<Class>, x: nat) returns (after: seq<Action>)
    requires ValidClasses(classes) && n >= 2 && x < |classes|
    ensures Run(Init(TwoStep, n, classes), after) ==
      Met(Init(TwoStep, n, classes), x, Meeting(n, Once.Entering, Once.Entering, -1, 0))
  {
    var s0 := Init(TwoStep, n, classes);
    after := [Enter(0, x)] + [Enter(1, x)];
    RunSnoc(s0, [], Enter(0, x));
    assert [] + [Enter(0, x)] == [Enter(0, x)];
    EnterMeets(s0, 0, x);
    RunSnoc(s0, [Enter(0, x)], Enter(1, x));
    EnterMeets(Next(s0, Enter(0, x)), 1, x);
  }

  /** Both add, then both read. */
  lemma Collide(n: nat, classes: seq<Class>, x: nat) returns (after: seq<Action>)
    requires ValidClasses(classes) && n >= 2 && x < |classes|
    ensures Run(Init(TwoStep, n, classes), after) ==
      Met(Init(TwoStep, n, classes), x, Meeting(n, Once.Spinning, Once.Spinning, 1, 2))
  {
    var s0 := Init(TwoStep, n, classes);
    after := TwoMeet(n, classes, x);
    var o0 := Meeting(n, Once.Entering, Once.Entering, -1, 0);
    after := MetSteps(s0, after, s0, x, o0, 0);
    var o1 := Meeting(n, Once.Adding, Once.Entering, -1, 0);
    assert Once.Next(o0, Once.Step(0)) == o1;
    after := MetSteps(s0, after, s0, x, o1, 1);
    var o2 := Meeting(n, Once.Adding, Once.Adding, -1, 0);
    assert Once.Next(o1, Once.Step(1)) == o2;
    after := BothRead(n, classes, x, after);
  }

  lemma BothRead(n: nat, classes: seq<Class>, x: nat, before: seq<Action>) returns (after: seq<Action>)
    requires ValidClasses(classes) && n >= 2 && x < |classes|
    requires Run(Init(TwoStep, n, classes), before) ==
      Met(Init(TwoStep, n, classes), x, Meeting(n, Once.Adding, Once.Adding, -1, 0))
    ensures Run(Init(TwoStep, n, classes), after) ==
      Met(Init(TwoStep, n, classes), x, Meeting(n, Once.Spinning, Once.Spinning, 1, 2))
  {
    var s0 := Init(TwoStep, n, classes);
    var o2 := Meeting(n, Once.Adding, Once.Adding, -1, 0);
    after := MetSteps(s0, before, s0, x, o2, 0);
    var o3 := Meeting(n, Once.Reading, Once.Adding, 0, 0);
    assert Once.Next(o2, Once.Step(0)) == o3;
    after := MetSteps(s0, after, s0, x, o3, 1);
    var o4 := Meeting(n, Once.Reading, Once.Reading, 1, 0);
    assert Once.Next(o3, Once.Step(1)) == o4;
    after := MetSteps(s0, after, s0, x, o4, 0);
    var o5 := Meeting(n, Once.Spinning, Once.Reading, 1, 1);
    assert Once.Next(o4, Once.Step(0)) == o5;
    after := MetSteps(s0, after, s0, x, o5, 1);
    assert Once.Next(o5, Once.Step(1)) == Meeting(n, Once.Spinning, Once.Spinning, 1, 2);
  }

  lemma CollidersWait(n: nat, classes: seq<Class>)
    requires ValidClasses(classes) && n >= 2 && |classes| >= 1
    ensures !AlwaysReturn(TwoStep, n, classes)
  {
    var after := Collide(n, classes, 0);
    var s := Run(Init(TwoStep, n, classes), after);
    InitHasInv(TwoStep, n, classes);
    RunKeepsInv(Init(TwoStep, n, classes), after);
    assert s.onces[0].pcs[0].Spinning?;
    assert Stuck(s, 0);
    forall bound: nat ensures !QuietBy(s, n, bound) {
      FairCovers(n, bound);
      StuckForever(s, 0, Fair(n, bound));
    }
  }

  /**
   * Exactly: whatever has gone before, enough rounds bring every instance() call to its return,
   * if and only if there is no thread or no class, or the increase is sound and no class needs
   * itself, directly or through others.
   */
  lemma AllInstancesReturnIff(form: Form, n: nat, classes: seq<Class>)
    requires ValidClasses(classes)
    ensures AlwaysReturn(form, n, classes)
       <==> n == 0 || |classes| == 0 || (Once.Sound(form, n) && AllBuildable(classes))
  {
    if n == 0 || |classes| == 0 {
      TriviallyReturn(form, n, classes);
    } else if !Once.Sound(form, n) {
      CollidersWait(n, classes);
    } else if AllBuildable(classes) {
      forall schedule ensures Returns(Run(Init(form, n, classes), schedule), n) {
        var bound := SoundlyReturn(form, n, classes, schedule);
      }
    } else {
      var x: nat :| x < |classes| && !Buildable(classes, x);
      UnbuildableWaits(form, n, classes, x);
    }
  }
}
