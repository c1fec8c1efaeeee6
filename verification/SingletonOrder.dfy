/**
 * In which order exit destroys singletons, over all runs of a given set of classes.  Each
 * property that the code does not have for every set of classes comes with the exact condition
 * on the classes under which it has it.
 */
module SingletonOrder {
  import opened Atomics
  import opened ExitSpec
  import opened SingletonRuns
  import opened Singletons

  ghost predicate CompletedBefore(s: State, x: nat, y: nat) {
    exists a, b :: 0 <= a < b < |s.completed| && s.completed[a] == x && s.completed[b] == y
  }

  /** The class whose destructor is the i-th of the exit list. */
  function ListedClass(s: State, i: nat): nat
    requires i < |s.exitList|
  {
    if s.exitList[i].id < |s.regs| then s.regs[s.exitList[i].id] else 0
  }

  /** It is the i-th that exec() destroys. */
  lemma ListedIsDestroyed(s: State, i: nat)
    requires i < |s.exitList|
    ensures |Destroyed(s)| == |s.exitList| && Destroyed(s)[i] == ListedClass(s, i)
  {
  }

  function LifetimeOf(s: State, x: nat): int {
    if x < |s.classes| then s.classes[x].lifetime else 0
  }

  /** Of two listed classes with the same lifetime, the one completed later is destroyed first. */
  ghost predicate TiesReversed(s: State) {
    forall i, j :: 0 <= i < j < |s.exitList| && LifetimeOf(s, ListedClass(s, i)) == LifetimeOf(s, ListedClass(s, j)) ==>
      CompletedBefore(s, ListedClass(s, j), ListedClass(s, i))
  }

  // One thread registers in the order in which it completes.

  function Pending(stacks: seq<seq<Frame>>): seq<nat> {
    if |stacks| == 1 && stacks[0] != [] && Top(stacks[0]).phase.Registering? then [Top(stacks[0]).id] else []
  }

  predicate InStep(s: State) {
    |s.stacks| <= 1 && s.completed == s.regs + Pending(s.stacks)
  }

  lemma NextKeepsStep(s: State, a: Action)
    requires InStep(s) && StackInv(s)
    ensures InStep(Next(s, a))
  {
    if a.Step? && a.t < |s.stacks| && s.stacks[a.t] != [] && Top(s.stacks[a.t]).id < |s.classes| {
      StepKeepsStep(s, a.t);
    }
  }

  lemma EnteringKeepsStep(s: State, t: nat)
    requires InStep(s) && StackInv(s) && t < |s.stacks| && s.stacks[t] != [] && Top(s.stacks[t]).id < |s.classes|
    requires Top(s.stacks[t]).phase.Entering?
    ensures InStep(DoReturn(s, t)) && InStep(DoRun(s, t))
  {
    assert ThreadOk(s.classes, s.stacks[t], Column(s.onces, t));
    CallerIsBuilding(s.classes, s.stacks[t]);
  }

  lemma BuilderKeepsStep(s: State, t: nat)
    requires InStep(s) && Sized(s) && t < |s.stacks| && s.stacks[t] != [] && Top(s.stacks[t]).id < |s.classes|
    requires !Top(s.stacks[t]).phase.Entering?
    ensures InStep(StepThread(s, t))
  {
  }

  lemma StepKeepsStep(s: State, t: nat)
    requires InStep(s) && StackInv(s) && t < |s.stacks| && s.stacks[t] != [] && Top(s.stacks[t]).id < |s.classes|
    ensures InStep(StepThread(s, t))
  {
    if Top(s.stacks[t]).phase.Entering? {
      EnteringKeepsStep(s, t);
    } else {
      BuilderKeepsStep(s, t);
    }
  }

  lemma CallerIsBuilding(classes: seq<Class>, stack: seq<Frame>)
    requires StackOk(classes, stack) && stack != []
    ensures AfterReturn(stack) != [] ==> Top(AfterReturn(stack)).phase.Building?
    ensures forall phase :: Top(WithTop(stack, phase)) == Frame(Top(stack).id, phase)
  {
  }

  lemma {:induction false} RunKeepsStep(s: State, schedule: seq<Action>)
    requires Inv(s) && InStep(s)
    ensures InStep(Run(s, schedule))
  {
    if schedule != [] {
      RunKeepsStep(s, schedule[..|schedule| - 1]);
      RunKeepsInv(s, schedule[..|schedule| - 1]);
      NextKeepsStep(Run(s, schedule[..|schedule| - 1]), schedule[|schedule| - 1]);
    }
  }

  lemma InStepReverses(s: State)
    requires Inv(s) && InStep(s)
    ensures TiesReversed(s)
  {
    RegisteredIsSorted(Prios(s.classes, s.regs));
    forall i, j | 0 <= i < j < |s.exitList| && LifetimeOf(s, ListedClass(s, i)) == LifetimeOf(s, ListedClass(s, j))
      ensures CompletedBefore(s, ListedClass(s, j), ListedClass(s, i))
    {
      ListedTask(s, i);
      ListedTask(s, j);
      assert Before(s.exitList[i], s.exitList[j]);
      var a, b := s.exitList[j].id, s.exitList[i].id;
      assert a < b && s.completed[a] == s.regs[a] && s.completed[b] == s.regs[b];
    }
  }

  // Any number of threads.

  lemma InitHasCompleted(form: Form, n: nat, classes: seq<Class>)
    requires ValidClasses(classes)
    ensures CompletedInv(Init(form, n, classes))
  {
    InitHasInv(form, n, classes);
  }

  lemma {:induction false} RunKeepsCompleted(s: State, schedule: seq<Action>)
    requires Inv(s) && CompletedInv(s)
    ensures CompletedInv(Run(s, schedule))
  {
    if schedule != [] {
      RunKeepsCompleted(s, schedule[..|schedule| - 1]);
      RunKeepsInv(s, schedule[..|schedule| - 1]);
      NextKeepsCompleted(Run(s, schedule[..|schedule| - 1]), schedule[|schedule| - 1]);
    }
  }

  /** Position of the first x in a list, counted from 1; 0 if there is none. */
  function PlaceOf(list: seq<nat>, x: nat): nat {
    if list == [] then 0
    else if list[0] == x then 1
    else if PlaceOf(list[1..], x) == 0 then 0
    else 1 + PlaceOf(list[1..], x)
  }

  lemma {:induction false} PlaceIsFirst(list: seq<nat>, x: nat)
    ensures PlaceOf(list, x) <= |list|
    ensures PlaceOf(list, x) > 0 ==> list[PlaceOf(list, x) - 1] == x
    ensures forall a :: 0 <= a < |list| && list[a] == x ==> 0 < PlaceOf(list, x) <= a + 1
  {
    if list != [] {
      PlaceIsFirst(list[1..], x);
      forall a | 0 <= a < |list| && list[a] == x ensures 0 < PlaceOf(list, x) <= a + 1 {
        if a > 0 { assert list[1..][a - 1] == x; }
      }
    }
  }

  /** What has been registered could be built. */
  lemma RegisteredIsBuildable(s: State, x: nat)
    requires RegInv(s) && x in s.regs
    ensures Buildable(s.classes, x)
  {
    var rank := seq(|s.classes|, i requires 0 <= i < |s.classes| => PlaceOf(s.regs, i));
    forall i | 0 <= i < |s.classes| && rank[i] > 0
      ensures forall d :: d in s.classes[i].deps ==> d < |rank| && 0 < rank[d] < rank[i]
    {
      PlaceIsFirst(s.regs, i);
      var p := rank[i] - 1;
      assert AllDeps(s.classes, s.regs[..p], s.regs[p]);
      forall d | d in s.classes[i].deps ensures d < |rank| && 0 < rank[d] < rank[i] {
        assert d in s.regs[..p];
        var a :| 0 <= a < p && s.regs[a] == d;
        PlaceIsFirst(s.regs, d);
      }
    }
    PlaceIsFirst(s.regs, x);
    assert Ranks(s.classes, rank) && rank[x] > 0;
  }

  /** One of the two calls instance() of the other, directly or through others. */
  ghost predicate Related(classes: seq<Class>, x: nat, y: nat) {
    Needs(classes, x, y) || Needs(classes, y, x)
  }

  /** Two different classes of equal lifetime, neither of which needs itself. */
  ghost predicate Tied(classes: seq<Class>, x: nat, y: nat) {
    && x < |classes| && y < |classes| && x != y && Buildable(classes, x) && Buildable(classes, y)
    && classes[x].lifetime == classes[y].lifetime
  }

  ghost predicate TiesRelated(classes: seq<Class>) {
    forall x: nat, y: nat :: Tied(classes, x, y) ==> Related(classes, x, y)
  }

  lemma RelatedTie(s: State, i: nat, j: nat)
    requires Inv(s) && CompletedInv(s) && TiesRelated(s.classes) && i < j < |s.exitList|
    requires LifetimeOf(s, ListedClass(s, i)) == LifetimeOf(s, ListedClass(s, j))
    ensures CompletedBefore(s, ListedClass(s, j), ListedClass(s, i))
  {
    ListedTask(s, i);
    ListedTask(s, j);
    RegisteredIsSorted(Prios(s.classes, s.regs));
    assert Before(s.exitList[i], s.exitList[j]);
    var a, b := s.exitList[j].id, s.exitList[i].id;
    var x, y := s.regs[b], s.regs[a];
    assert x in s.regs && y in s.regs;
    RegisteredIsBuildable(s, x);
    RegisteredIsBuildable(s, y);
    assert Tied(s.classes, x, y);
    RegisteredOneWay(s, a, b);
    NeededIsCompleted(s, x, y);
  }

  /** Of two registered classes the earlier does not need the later. */
  lemma RegisteredOneWay(s: State, a: nat, b: nat)
    requires RegInv(s) && a < b < |s.regs|
    ensures !Needs(s.classes, s.regs[a], s.regs[b])
  {
    if k: nat :| NeedsIn(s.classes, s.regs[a], s.regs[b], k) {
      var c := NeededEarlier(s.classes, s.regs, a, s.regs[b], k);
    }
  }

  lemma NeededIsCompleted(s: State, x: nat, y: nat)
    requires BuildInv(s) && CompletedInv(s) && x < |s.onces| && x in s.regs && Needs(s.classes, x, y)
    ensures CompletedBefore(s, y, x)
  {
    var k: nat :| NeedsIn(s.classes, x, y, k);
    assert ClassTells(s, x);
    var q :| 0 <= q < |s.completed| && s.completed[q] == x;
    var p := NeededEarlier(s.classes, s.completed, q, y, k);
  }

  lemma StartsSolo(form: Form, n: nat, classes: seq<Class>, t: nat, rank: seq<nat>, z: nat)
    requires ValidClasses(classes) && Ranks(classes, rank) && t < n
    ensures Solo(Run(Init(form, n, classes), []), t, rank, z)
  {
    InitHasInv(form, n, classes);
    InitHasCompleted(form, n, classes);
  }

  /** Thread 0 constructs x, which does not need y, and stops before it registers x. */
  lemma HoldFirst(form: Form, n: nat, classes: seq<Class>, rank: seq<nat>, x: nat, y: nat) returns (held: seq<Action>)
    requires ValidClasses(classes) && Ranks(classes, rank) && n >= 1 && x < |classes| && rank[x] > 0
    requires !Touches(classes, x, y)
    ensures var s := Run(Init(form, n, classes), held);
      && Solo(s, 0, rank, y) && s.classes == classes && |s.stacks| == n
      && s.stacks[0] == [Frame(x, Registering)]
      && (forall u :: 0 < u < n ==> s.stacks[u] == [])
      && x in s.completed && x !in s.regs && y !in s.completed && y !in s.regs
  {
    var s0 := Init(form, n, classes);
    StartsSolo(form, n, classes, 0, rank, y);
    SoloEnters(s0, [], 0, rank, y, x);
    var m := Run(s0, [Enter(0, x)]);
    assert [] + [Enter(0, x)] == [Enter(0, x)];
    held := SoloHolds(s0, [Enter(0, x)], 0, rank, y);
    var s := Run(s0, held);
    assert FrameTells(s, s.stacks[0][0]);
  }

  /** x was completed before y, but is registered just now, after y. */
  ghost predicate Crossed(s: State, x: nat, y: nat) {
    && s.regs != [] && s.regs[|s.regs| - 1] == x && y in s.regs[..|s.regs| - 1]
    && CompletedBefore(s, x, y)
  }

  /** With x held, thread 1 constructs and registers y, which does not need x. */
  lemma PassBy(form: Form, n: nat, classes: seq<Class>, rank: seq<nat>, x: nat, y: nat) returns (more: seq<Action>)
    requires ValidClasses(classes) && Ranks(classes, rank) && n >= 2 && x < |classes| && y < |classes|
    requires rank[x] > 0 && rank[y] > 0 && !Touches(classes, x, y) && !Touches(classes, y, x)
    ensures var s := Run(Init(form, n, classes), more);
      && Inv(s) && CompletedInv(s) && s.classes == classes && |s.stacks| == n
      && s.stacks[0] == [Frame(x, Registering)] && y in s.regs && CompletedBefore(s, x, y)
  {
    var s0 := Init(form, n, classes);
    var held := HoldFirst(form, n, classes, rank, x, y);
    var s1 := Run(s0, held);
    HeldIsSolo(s1, rank, x, y);
    SoloEnters(s0, held, 1, rank, x, y);
    var m := Run(s0, held + [Enter(1, y)]);
    more := SoloReturns(s0, held + [Enter(1, y)], 1, rank, x);
    var s2 := Run(s0, more);
    SinceTransitive(s1, m, s2, 1, x);
    LaterCompleted(s1, s2, x, y);
  }

  lemma HeldIsSolo(s: State, rank: seq<nat>, x: nat, y: nat)
    requires Solo(s, 0, rank, y) && |s.stacks| >= 2 && s.stacks[0] == [Frame(x, Registering)]
    requires forall u :: 0 < u < |s.stacks| ==> s.stacks[u] == []
    ensures Solo(s, 1, rank, x)
  {
  }

  lemma LaterCompleted(s1: State, s2: State, x: nat, y: nat)
    requires BuildInv(s2) && CompletedInv(s2) && s1.completed <= s2.completed
    requires x in s1.completed && y !in s1.completed && y in s2.regs && y < |s2.onces|
    ensures CompletedBefore(s2, x, y)
  {
    assert ClassTells(s2, y) && y in s2.completed;
    var p :| 0 <= p < |s1.completed| && s1.completed[p] == x;
    var q :| 0 <= q < |s2.completed| && s2.completed[q] == y;
    assert s2.completed[p] == x;
  }

  /** Then x is registered. */
  lemma CrossOver(form: Form, n: nat, classes: seq<Class>, rank: seq<nat>, x: nat, y: nat) returns (after: seq<Action>)
    requires ValidClasses(classes) && Ranks(classes, rank) && n >= 2 && x < |classes| && y < |classes|
    requires rank[x] > 0 && rank[y] > 0 && !Touches(classes, x, y) && !Touches(classes, y, x)
    ensures var s := Run(Init(form, n, classes), after);
      Inv(s) && CompletedInv(s) && s.classes == classes && Crossed(s, x, y)
  {
    var s0 := Init(form, n, classes);
    var more := PassBy(form, n, classes, rank, x, y);
    after := more + [Step(0)];
    RunSnoc(s0, more, Step(0));
    NextKeepsInv(Run(s0, more), Step(0));
    NextKeepsCompleted(Run(s0, more), Step(0));
    RegisterCrosses(Run(s0, more), x, y);
  }

  lemma RegisterCrosses(s: State, x: nat, y: nat)
    requires Sized(s) && |s.stacks| >= 1 && s.stacks[0] == [Frame(x, Registering)] && x < |s.classes|
    requires y in s.regs && CompletedBefore(s, x, y)
    ensures Next(s, Step(0)).classes == s.classes && Crossed(Next(s, Step(0)), x, y)
  {
    var s' := DoRegister(s, 0);
    assert s'.regs[..|s.regs|] == s.regs && s'.completed == s.completed;
  }

  /** Of equal lifetimes, the later registered is listed first. */
  lemma LaterListedFirst(s: State, a: nat, b: nat) returns (i: nat, j: nat)
    requires RegInv(s) && a < b < |s.regs| && s.regs[a] < |s.classes| && s.regs[b] < |s.classes|
    requires s.classes[s.regs[a]].lifetime == s.classes[s.regs[b]].lifetime
    ensures i < j < |s.exitList| && ListedClass(s, i) == s.regs[b] && ListedClass(s, j) == s.regs[a]
  {
    i := ListedAt(s, b);
    j := ListedAt(s, a);
    ListedTask(s, i);
    ListedTask(s, j);
    ListIsOrdered(s);
    assert j < i ==> Before(s.exitList[j], s.exitList[i]);
  }

  lemma ListIsOrdered(s: State)
    requires RegInv(s)
    ensures Ordered(s.exitList)
  {
    RegisteredIsSorted(Prios(s.classes, s.regs));
  }

  lemma CompletedOneWay(s: State, x: nat, y: nat)
    requires CompletedInv(s) && CompletedBefore(s, x, y)
    ensures !CompletedBefore(s, y, x)
  {
  }

  lemma CrossedTie(s: State, x: nat, y: nat)
    requires RegInv(s) && CompletedInv(s) && x < |s.classes| && y < |s.classes| && Crossed(s, x, y)
    requires s.classes[x].lifetime == s.classes[y].lifetime
    ensures !TiesReversed(s)
  {
    var a :| 0 <= a < |s.regs| - 1 && s.regs[a] == y;
    var i, j := LaterListedFirst(s, a, |s.regs| - 1);
    CompletedOneWay(s, x, y);
  }

  ghost predicate AlwaysReversed(form: Form, n: nat, classes: seq<Class>) {
    forall schedule :: TiesReversed(Run(Init(form, n, classes), schedule))
  }

  /**
   * For any set of classes: ties are broken in reverse order of completed construction in every
   * run, exactly if at most one thread uses singletons, or of any two classes of equal lifetime
   * one needs the other.  (Classes that need themselves are never constructed, and do not count.)
   */
  lemma TiesReversedIff(form: Form, n: nat, classes: seq<Class>)
    requires ValidClasses(classes)
    ensures AlwaysReversed(form, n, classes) <==> n <= 1 || TiesRelated(classes)
  {
    if n <= 1 || TiesRelated(classes) {
      forall schedule ensures TiesReversed(Run(Init(form, n, classes), schedule)) {
        TiesHold(form, n, classes, schedule);
      }
    } else {
      var x: nat, y: nat :| Tied(classes, x, y) && !Related(classes, x, y);
      var rank := BothRanked(classes, x, y);
      var after := CrossOver(form, n, classes, rank, x, y);
      CrossedTie(Run(Init(form, n, classes), after), x, y);
    }
  }

  lemma TiesHold(form: Form, n: nat, classes: seq<Class>, schedule: seq<Action>)
    requires ValidClasses(classes) && (n <= 1 || TiesRelated(classes))
    ensures TiesReversed(Run(Init(form, n, classes), schedule))
  {
    var s := Run(Init(form, n, classes), schedule);
    InitHasInv(form, n, classes);
    InitHasCompleted(form, n, classes);
    RunKeepsInv(Init(form, n, classes), schedule);
    RunKeepsCompleted(Init(form, n, classes), schedule);
    if n <= 1 {
      RunKeepsStep(Init(form, n, classes), schedule);
      InStepReverses(s);
    } else {
      forall i, j | 0 <= i < j < |s.exitList| && LifetimeOf(s, ListedClass(s, i)) == LifetimeOf(s, ListedClass(s, j))
        ensures CompletedBefore(s, ListedClass(s, j), ListedClass(s, i))
      {
        RelatedTie(s, i, j);
      }
    }
  }

  // Lifetimes.

  /** Any two classes that do not need themselves can both be constructed. */
  lemma BothRegistered(form: Form, n: nat, classes: seq<Class>, x: nat, y: nat) returns (schedule: seq<Action>)
    requires ValidClasses(classes) && n >= 1 && x < |classes| && y < |classes|
    requires Buildable(classes, x) && Buildable(classes, y)
    ensures var s := Run(Init(form, n, classes), schedule);
      Inv(s) && s.classes == classes && x in s.regs && y in s.regs
  {
    var s0, z := Init(form, n, classes), |classes|;
    var rank := BothRanked(classes, x, y);
    StartsSolo(form, n, classes, 0, rank, z);
    NotTouched(classes, x);
    NotTouched(classes, y);
    SoloEnters(s0, [], 0, rank, z, x);
    var first := SoloReturns(s0, [] + [Enter(0, x)], 0, rank, z);
    SoloEnters(s0, first, 0, rank, z, y);
    schedule := SoloReturns(s0, first + [Enter(0, y)], 0, rank, z);
  }

  lemma NotTouched(classes: seq<Class>, x: nat)
    requires ValidClasses(classes) && x < |classes|
    ensures !Touches(classes, x, |classes|)
  {
    if k: nat :| NeedsIn(classes, x, |classes|, k) {
      NoClassNeeds(classes, x, k);
    }
  }

  /** Any two listed classes are destroyed in the order their lifetimes ask for. */
  ghost predicate LifetimesKept(s: State) {
    forall i, j :: 0 <= i < |s.exitList| && 0 <= j < |s.exitList| && i != j ==>
      (i < j <==> ShouldPrecede(LifetimeOf(s, ListedClass(s, i)), s.exitList[i].id,
                                LifetimeOf(s, ListedClass(s, j)), s.exitList[j].id))
  }

  predicate Orderable(x: int, y: int) {
    x == y || (x != INT_MIN && y != INT_MIN)
  }

  ghost predicate AllOrderable(classes: seq<Class>) {
    forall x: nat, y: nat ::
      x < |classes| && y < |classes| && Buildable(classes, x) && Buildable(classes, y) ==>
        Orderable(classes[x].lifetime, classes[y].lifetime)
  }

  /**
   * For any set of classes: exit destroys in the order the lifetimes ask for in every run, exactly
   * if no class of lifetime INT_MIN can be constructed beside one of another lifetime.
   */
  lemma LifetimesKeptIff(form: Form, n: nat, classes: seq<Class>)
    requires ValidClasses(classes) && n >= 1
    ensures (forall schedule :: LifetimesKept(Run(Init(form, n, classes), schedule))) <==> AllOrderable(classes)
  {
    if AllOrderable(classes) {
      forall schedule ensures LifetimesKept(Run(Init(form, n, classes), schedule)) {
        OrderableKept(form, n, classes, schedule);
      }
    } else {
      var x: nat, y: nat :| x < |classes| && y < |classes| && Buildable(classes, x) && Buildable(classes, y)
        && !Orderable(classes[x].lifetime, classes[y].lifetime);
      var schedule := BothRegistered(form, n, classes, x, y);
      UnorderableLost(form, n, classes, schedule, x, y);
    }
  }

  lemma OrderableKept(form: Form, n: nat, classes: seq<Class>, schedule: seq<Action>)
    requires ValidClasses(classes) && AllOrderable(classes)
    ensures LifetimesKept(Run(Init(form, n, classes), schedule))
  {
    var s := Run(Init(form, n, classes), schedule);
    InitHasInv(form, n, classes);
    RunKeepsInv(Init(form, n, classes), schedule);
    forall i, j | 0 <= i < |s.exitList| && 0 <= j < |s.exitList| && i != j
      ensures i < j <==> ShouldPrecede(LifetimeOf(s, ListedClass(s, i)), s.exitList[i].id,
                                       LifetimeOf(s, ListedClass(s, j)), s.exitList[j].id)
    {
      DestructionOrderIff(form, n, classes, schedule, s, i, j);
      RegisteredIsBuildable(s, ListedClass(s, i));
      RegisteredIsBuildable(s, ListedClass(s, j));
    }
  }

  lemma UnorderableLost(form: Form, n: nat, classes: seq<Class>, schedule: seq<Action>, x: nat, y: nat)
    requires ValidClasses(classes) && x < |classes| && y < |classes|
    requires !Orderable(classes[x].lifetime, classes[y].lifetime)
    requires var s := Run(Init(form, n, classes), schedule);
      Inv(s) && s.classes == classes && x in s.regs && y in s.regs
    ensures !LifetimesKept(Run(Init(form, n, classes), schedule))
  {
    var s := Run(Init(form, n, classes), schedule);
    var a :| 0 <= a < |s.regs| && s.regs[a] == x;
    var b :| 0 <= b < |s.regs| && s.regs[b] == y;
    var i := ListedAt(s, a);
    var j := ListedAt(s, b);
    DestructionOrderIff(form, n, classes, schedule, s, i, j);
  }

  /** Every listed class comes before all instances of no shorter lifetime that it needs. */
  ghost predicate UsersFirst(s: State) {
    forall i, dep :: 0 <= i < |s.exitList| && s.exitList[i].id < |s.regs| && Uses(s, ListedClass(s, i), dep) ==>
      exists j :: i < j < |s.exitList| && s.exitList[j].id < |s.regs| && s.regs[s.exitList[j].id] == dep
  }

  ghost predicate Uses(s: State, x: nat, dep: nat) {
    && x < |s.classes| && dep < |s.classes| && Needs(s.classes, x, dep)
    && s.classes[dep].lifetime >= s.classes[x].lifetime
  }

  ghost predicate UsersOrderable(classes: seq<Class>) {
    forall x: nat, dep: nat ::
      x < |classes| && dep < |classes| && Buildable(classes, x) && Needs(classes, x, dep) ==>
        (classes[x].lifetime == INT_MIN ==> classes[dep].lifetime == INT_MIN)
  }

  /**
   * For any set of classes: a class is destroyed before all instances of no shorter lifetime that
   * it needs, through however many constructors, in every run, exactly if no class of lifetime
   * INT_MIN that can be constructed needs one of another lifetime.
   */
  lemma UsersFirstIff(form: Form, n: nat, classes: seq<Class>)
    requires ValidClasses(classes) && n >= 1
    ensures (forall schedule :: UsersFirst(Run(Init(form, n, classes), schedule))) <==> UsersOrderable(classes)
  {
    if UsersOrderable(classes) {
      forall schedule ensures UsersFirst(Run(Init(form, n, classes), schedule)) {
        OrderableUsers(form, n, classes, schedule);
      }
    } else {
      var x: nat, dep: nat :| x < |classes| && dep < |classes| && Buildable(classes, x) && Needs(classes, x, dep)
        && classes[x].lifetime == INT_MIN && classes[dep].lifetime != INT_MIN;
      assert classes[dep] in classes;
      var schedule := BothRegistered(form, n, classes, x, x);
      UserLost(form, n, classes, schedule, x, dep);
    }
  }

  lemma OrderableUsers(form: Form, n: nat, classes: seq<Class>, schedule: seq<Action>)
    requires ValidClasses(classes) && UsersOrderable(classes)
    ensures UsersFirst(Run(Init(form, n, classes), schedule))
  {
    var s := Run(Init(form, n, classes), schedule);
    InitHasInv(form, n, classes);
    RunKeepsInv(Init(form, n, classes), schedule);
    forall i, dep | 0 <= i < |s.exitList| && s.exitList[i].id < |s.regs| && Uses(s, ListedClass(s, i), dep)
      ensures exists j :: i < j < |s.exitList| && s.exitList[j].id < |s.regs| && s.regs[s.exitList[j].id] == dep
    {
      RegisteredIsBuildable(s, ListedClass(s, i));
      DestroyedBeforeWhatItUsedIff(form, n, classes, schedule, s, i, dep);
    }
  }

  lemma UserLost(form: Form, n: nat, classes: seq<Class>, schedule: seq<Action>, x: nat, dep: nat)
    requires ValidClasses(classes) && x < |classes| && dep < |classes| && Needs(classes, x, dep)
    requires classes[x].lifetime == INT_MIN < classes[dep].lifetime
    requires var s := Run(Init(form, n, classes), schedule); Inv(s) && s.classes == classes && x in s.regs
    ensures !UsersFirst(Run(Init(form, n, classes), schedule))
  {
    var s := Run(Init(form, n, classes), schedule);
    var a :| 0 <= a < |s.regs| && s.regs[a] == x;
    var i := ListedAt(s, a);
    DestroyedBeforeWhatItUsedIff(form, n, classes, schedule, s, i, dep);
    assert Uses(s, ListedClass(s, i), dep);
  }

  /** The shortest-lived class, alone beside another, is destroyed last. */
  lemma ShortestLivedLast(form: Form, n: nat) returns (schedule: seq<Action>)
    requires n >= 1
    ensures !LifetimesKept(Run(Init(form, n, [Class(INT_MIN, []), Class(0, [])]), schedule))
  {
    var classes := [Class(INT_MIN, []), Class(0, [])];
    assert Ranks(classes, [1, 1]);
    assert Buildable(classes, 0) && Buildable(classes, 1);
    LifetimesKeptIff(form, n, classes);
    assert !Orderable(classes[0].lifetime, classes[1].lifetime);
    schedule :| !LifetimesKept(Run(Init(form, n, classes), schedule));
  }

  /** And it is destroyed after an instance that it uses. */
  lemma ShortestLivedLastUser(form: Form, n: nat) returns (schedule: seq<Action>)
    requires n >= 1
    ensures !UsersFirst(Run(Init(form, n, [Class(INT_MIN, [1]), Class(0, [])]), schedule))
  {
    var classes := [Class(INT_MIN, [1]), Class(0, [])];
    ShortUser(classes);
    UsersFirstIff(form, n, classes);
    schedule :| !UsersFirst(Run(Init(form, n, classes), schedule));
  }

  lemma ShortUser(classes: seq<Class>)
    requires classes == [Class(INT_MIN, [1]), Class(0, [])]
    ensures ValidClasses(classes) && !UsersOrderable(classes)
  {
    assert Ranks(classes, [2, 1]);
    assert Buildable(classes, 0);
    assert 1 in classes[0].deps;
    assert NeedsIn(classes, 0, 1, 1);
  }
}
