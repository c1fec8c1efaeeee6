/**
 * Any number of singleton classes used by any number of threads.  The constructor of a class
 * may call instance() of others.  Each class has its thread_once object; construction is
 * followed by registration of the destructor on the exit stack.
 */
module Singletons {
  import opened Atomics
  import opened Sequences
  import opened Sums
  import opened ExitSpec
  import Once = ThreadOnce

  /** Lifetime, and the instances that the constructor asks for, in order. */
  datatype Class = Class(lifetime: int, deps: seq<nat>)

  /** How far the thread that runs instance_init() has come; Entering is everything in run() around it. */
  datatype Phase = Entering | Building(k: nat) | Registering | Built

  datatype Frame = Frame(id: nat, phase: Phase)

  /**
   * onces, stacks (of instance() calls in progress, outermost first) and exitList are the
   * state; the rest is history: completed constructions per class, the classes in the order in
   * which their constructions completed, and in which their destructors were registered.
   */
  datatype State = State(classes: seq<Class>, onces: seq<Once.State>, stacks: seq<seq<Frame>>,
                         constructed: seq<nat>, completed: seq<nat>, regs: seq<nat>, exitList: seq<Task>)

  datatype Action = Enter(t: nat, id: nat) | Step(t: nat)

  const INT_MIN: int := -0x8000_0000
  const INT_MAX: int := 0x7fff_ffff

  /** -Lifetime in 32-bit two's complement. */
  function Negated(lifetime: int): int {
    if lifetime == INT_MIN then INT_MIN else -lifetime
  }

  predicate ValidClasses(classes: seq<Class>) {
    forall c :: c in classes ==> INT_MIN <= c.lifetime <= INT_MAX && forall d :: d in c.deps ==> d < |classes|
  }

  function Init(form: Form, n: nat, classes: seq<Class>): State {
    State(classes, seq(|classes|, i => Once.Init(form, n)), seq(n, i => []), seq(|classes|, i => 0), [], [], [])
  }

  predicate Sized(s: State) {
    && |s.onces| == |s.classes| == |s.constructed|
    && ValidClasses(s.classes)
    && forall i :: 0 <= i < |s.onces| ==> |s.onces[i].pcs| == |s.stacks|
  }

  /** One step of thread t in run() of class i. */
  function OnceAct(s: State, i: nat, a: Once.Action): State
    requires i < |s.onces|
  {
    s.(onces := s.onces[i := Once.Next(s.onces[i], a)])
  }

  predicate OnStack(stack: seq<Frame>, id: nat) {
    exists k :: 0 <= k < |stack| && stack[k].id == id
  }

  /** A call of instance(). */
  function DoEnter(s: State, t: nat, id: nat): State
    requires id < |s.onces| && t < |s.stacks|
  {
    OnceAct(s, id, Once.Call(t)).(stacks := s.stacks[t := s.stacks[t] + [Frame(id, Entering)]])
  }

  function Top(stack: seq<Frame>): Frame
    requires stack != []
  {
    stack[|stack| - 1]
  }

  function WithTop(stack: seq<Frame>, phase: Phase): seq<Frame>
    requires stack != []
  {
    stack[..|stack| - 1] + [Frame(Top(stack).id, phase)]
  }

  function SetPhase(s: State, t: nat, phase: Phase): State
    requires t < |s.stacks| && s.stacks[t] != []
  {
    s.(stacks := s.stacks[t := WithTop(s.stacks[t], phase)])
  }

  function AfterReturn(stack: seq<Frame>): seq<Frame>
    requires stack != []
  {
    var rest := stack[..|stack| - 1];
    if rest != [] && Top(rest).phase.Building? then WithTop(rest, Building(Top(rest).phase.k + 1)) else rest
  }

  /** instance() returns; the constructor that called it goes on. */
  function DoReturn(s: State, t: nat): State
    requires t < |s.stacks| && s.stacks[t] != []
  {
    s.(stacks := s.stacks[t := AfterReturn(s.stacks[t])])
  }

  /** The inplace constructor returns. */
  function DoConstruct(s: State, t: nat): State
    requires t < |s.stacks| && s.stacks[t] != [] && Top(s.stacks[t]).id < |s.constructed|
  {
    var i := Top(s.stacks[t]).id;
    SetPhase(s, t, Registering).(constructed := s.constructed[i := s.constructed[i] + 1],
                                 completed := s.completed + [i])
  }

  /** runtime::atexit(instance_fini, -Lifetime). */
  function DoRegister(s: State, t: nat): State
    requires t < |s.stacks| && s.stacks[t] != [] && Top(s.stacks[t]).id < |s.classes|
  {
    var i := Top(s.stacks[t]).id;
    SetPhase(s, t, Built).(regs := s.regs + [i],
                           exitList := Insert(s.exitList, Task(|s.regs|, Negated(s.classes[i].lifetime))))
  }

  /** A step in run() outside the once routine; the routine begins when the thread has won. */
  function DoRun(s: State, t: nat): State
    requires Sized(s) && t < |s.stacks| && s.stacks[t] != [] && Top(s.stacks[t]).id < |s.classes|
  {
    var i := Top(s.stacks[t]).id;
    var s' := OnceAct(s, i, Once.Step(t));
    if |s'.onces[i].pcs| == |s.stacks| && s'.onces[i].pcs[t].Running? then SetPhase(s', t, Building(0)) else s'
  }

  /** The once routine returns to run(). */
  function DoLeave(s: State, t: nat): State
    requires Sized(s) && t < |s.stacks| && s.stacks[t] != [] && Top(s.stacks[t]).id < |s.classes|
  {
    SetPhase(OnceAct(s, Top(s.stacks[t]).id, Once.Step(t)), t, Entering)
  }

  function StepThread(s: State, t: nat): State
    requires Sized(s) && t < |s.stacks| && s.stacks[t] != [] && Top(s.stacks[t]).id < |s.classes|
  {
    var Frame(i, phase) := Top(s.stacks[t]);
    var deps := s.classes[i].deps;
    match phase
    case Entering => if s.onces[i].pcs[t].Returned? then DoReturn(s, t) else DoRun(s, t)
    case Building(k) =>
      if k >= |deps| then DoConstruct(s, t)
      else if deps[k] >= |s.onces| || OnStack(s.stacks[t], deps[k]) then s   // one that needs itself waits for ever
      else DoEnter(s, t, deps[k])
    case Registering => DoRegister(s, t)
    case Built => DoLeave(s, t)
  }

  function Next(s: State, a: Action): State {
    if a.t >= |s.stacks| || !Sized(s) then s
    else match a
      case Enter(t, id) => if s.stacks[t] == [] && id < |s.onces| then DoEnter(s, t, id) else s
      case Step(t) =>
        if s.stacks[t] == [] || Top(s.stacks[t]).id >= |s.classes| then s else StepThread(s, t)
  }

  function Run(s: State, schedule: seq<Action>): State {
    if schedule == [] then s else Next(Run(s, schedule[..|schedule| - 1]), schedule[|schedule| - 1])
  }

  /** What a step of thread t does in run(): nothing, or one action on one once object. */
  lemma OncesAfter(s: State, t: nat) returns (i: nat, a: Once.Action)
    requires Sized(s) && t < |s.stacks| && s.stacks[t] != [] && Top(s.stacks[t]).id < |s.classes|
    ensures i < |s.onces| && a.t == t && (a.Step? ==> i == Top(s.stacks[t]).id)
    ensures StepThread(s, t).onces == s.onces || StepThread(s, t).onces == OnceAct(s, i, a).onces
  {
    var Frame(id, phase) := Top(s.stacks[t]);
    i, a := id, Once.Step(t);
    if phase.Building? && phase.k < |s.classes[id].deps| && s.classes[id].deps[phase.k] < |s.onces| {
      i, a := s.classes[id].deps[phase.k], Once.Call(t);
    }
  }

  /** What it does to the thread's stack of calls. */
  lemma StacksAfter(s: State, t: nat) returns (stack: seq<Frame>)
    requires Sized(s) && t < |s.stacks| && s.stacks[t] != [] && Top(s.stacks[t]).id < |s.classes|
    ensures StepThread(s, t).stacks == s.stacks[t := stack] && StepThread(s, t).classes == s.classes
    ensures var was, top := s.stacks[t], Top(s.stacks[t]);
      || stack == was
      || (exists phase :: stack == WithTop(was, phase))
      || (stack == AfterReturn(was) && top.phase.Entering? && s.onces[top.id].pcs[t].Returned?)
      || (exists d :: stack == was + [Frame(d, Entering)] && Wants(s.classes, top, d))
  {
    var was := s.stacks[t];
    var Frame(i, phase) := Top(was);
    stack := StepThread(s, t).stacks[t];
    match phase
    case Entering => assert s.onces[i].pcs[t].Returned? || stack == was || stack == WithTop(was, Building(0));
    case Building(k) =>
      if k >= |s.classes[i].deps| {
        assert stack == WithTop(was, Registering);
      } else {
        var d := s.classes[i].deps[k];
        assert stack == was || (stack == was + [Frame(d, Entering)] && Wants(s.classes, Top(was), d));
      }
    case Registering => assert stack == WithTop(was, Built);
    case Built => assert stack == WithTop(was, Entering);
  }

  predicate Wants(classes: seq<Class>, frame: Frame, id: nat) {
    && frame.id < |classes| && frame.phase.Building? && frame.phase.k < |classes[frame.id].deps|
    && classes[frame.id].deps[frame.phase.k] == id
  }

  // What every run keeps.

  /** Each once object keeps its own invariant. */
  ghost predicate OnceInv(s: State) {
    Sized(s) && forall i :: 0 <= i < |s.onces| ==> Once.Inv(s.onces[i])
  }

  predicate AtRest(pc: Once.Pc) {
    pc.Idle? || pc.Returned?
  }

  /** A call stack: each constructor waits for the instance it asked for; no class twice. */
  ghost predicate StackOk(classes: seq<Class>, stack: seq<Frame>) {
    && (forall k :: 0 <= k < |stack| ==> stack[k].id < |classes|)
    && (forall k, l :: 0 <= k < l < |stack| ==> stack[k].id != stack[l].id)
    && (forall k :: 0 <= k < |stack| - 1 ==>
          && stack[k].phase.Building? && stack[k].phase.k < |classes[stack[k].id].deps|
          && stack[k + 1].id == classes[stack[k].id].deps[stack[k].phase.k])
  }

  /** Where the thread stands in run() fits its frame. */
  predicate FrameFits(pc: Once.Pc, phase: Phase) {
    if phase.Entering? then !pc.Idle? && !pc.Running? else pc.Running?
  }

  /** Where thread t stands in run() of each class. */
  function Column(onces: seq<Once.State>, t: nat): seq<Once.Pc> {
    seq(|onces|, i requires 0 <= i < |onces| => if t < |onces[i].pcs| then onces[i].pcs[t] else Once.Idle)
  }

  /** One thread's call stack and its places in run() agree. */
  ghost predicate ThreadOk(classes: seq<Class>, stack: seq<Frame>, column: seq<Once.Pc>) {
    && |column| == |classes|
    && StackOk(classes, stack)
    && (forall k :: 0 <= k < |stack| ==> FrameFits(column[stack[k].id], stack[k].phase))
    && (forall i :: 0 <= i < |column| && !AtRest(column[i]) ==> OnStack(stack, i))
  }

  ghost predicate StackInv(s: State) {
    Sized(s) && forall t :: 0 <= t < |s.stacks| ==> ThreadOk(s.classes, s.stacks[t], Column(s.onces, t))
  }

  ghost predicate DepsUpTo(classes: seq<Class>, regs: seq<nat>, i: nat, k: int)
    requires i < |classes|
  {
    forall m :: 0 <= m < k && m < |classes[i].deps| ==> classes[i].deps[m] in regs
  }

  ghost predicate AllDeps(classes: seq<Class>, regs: seq<nat>, i: nat)
    requires i < |classes|
  {
    forall d :: d in classes[i].deps ==> d in regs
  }

  /** What a frame says about the construction of its class. */
  ghost predicate FrameTells(s: State, frame: Frame) {
    && frame.id < |s.constructed| && frame.id < |s.classes|
    && match frame.phase
       case Entering => true
       case Building(k) =>
         s.constructed[frame.id] == 0 && frame.id !in s.regs && DepsUpTo(s.classes, s.regs, frame.id, k)
       case Registering => s.constructed[frame.id] == 1 && frame.id !in s.regs && AllDeps(s.classes, s.regs, frame.id)
       case Built => s.constructed[frame.id] == 1 && frame.id in s.regs
  }

  ghost predicate FramesTell(s: State) {
    forall t, k :: 0 <= t < |s.stacks| && 0 <= k < |s.stacks[t]| ==> FrameTells(s, s.stacks[t][k])
  }

  ghost predicate ClassTells(s: State, i: nat)
    requires i < |s.onces| && i < |s.constructed|
  {
    && (s.onces[i].starts == 0 ==> s.constructed[i] == 0 && i !in s.regs)
    && (s.onces[i].completions >= 1 ==> s.constructed[i] == 1 && i in s.regs)
    && s.constructed[i] <= 1
    && (i in s.regs ==> s.constructed[i] == 1)
  }

  ghost predicate BuildInv(s: State) {
    && Sized(s) && FramesTell(s)
    && forall i :: 0 <= i < |s.onces| ==> ClassTells(s, i)
  }

  function Prios(classes: seq<Class>, regs: seq<nat>): seq<int>
    requires forall i :: i in regs ==> i < |classes|
  {
    seq(|regs|, j requires 0 <= j < |regs| => assert regs[j] in regs; Negated(classes[regs[j]].lifetime))
  }

  /** Destructors are registered once, after those of all instances their constructor used; the exit list holds them. */
  ghost predicate RegInv(s: State) {
    && Sized(s)
    && (forall i :: i in s.regs ==> i < |s.classes|)
    && Distinct(s.regs)
    && (forall a :: 0 <= a < |s.regs| ==> s.regs[a] < |s.classes| && AllDeps(s.classes, s.regs[..a], s.regs[a]))
    && s.exitList == Registered(Prios(s.classes, s.regs))
  }

  ghost predicate Inv(s: State) {
    OnceInv(s) && StackInv(s) && BuildInv(s) && RegInv(s)
  }

  // Moves of one thread in one once object.

  lemma OnceMoves(s: State, i: nat, a: Once.Action) returns (v: Once.Pc)
    requires OnceInv(s) && i < |s.onces| && a.t < |s.stacks|
    ensures OnceInv(OnceAct(s, i, a))
    ensures v == OnceAct(s, i, a).onces[i].pcs[a.t]
    ensures forall u :: 0 <= u < |s.stacks| ==>
      Column(OnceAct(s, i, a).onces, u) == if u == a.t then Column(s.onces, u)[i := v] else Column(s.onces, u)
  {
    v := Once.NextMovesOne(s.onces[i], a);
    Once.NextKeepsInv(s.onces[i], a);
  }

  /** At most one frame in the whole process is past winning the race for its class. */
  lemma OneBuilder(s: State, t: nat, k: nat, u: nat, l: nat)
    requires OnceInv(s) && StackInv(s)
    requires t < |s.stacks| && k < |s.stacks[t]| && u < |s.stacks| && l < |s.stacks[u]|
    requires s.stacks[t][k].id == s.stacks[u][l].id
    requires !s.stacks[t][k].phase.Entering? && !s.stacks[u][l].phase.Entering?
    ensures t == u && k == l
  {
    var once := s.onces[s.stacks[t][k].id];
    FrameRuns(s, t, k);
    FrameRuns(s, u, l);
    if t < u { TotalPair(once.pcs, t, u, Once.WindowWeight); }
    if u < t { TotalPair(once.pcs, u, t, Once.WindowWeight); }
  }

  lemma FrameRuns(s: State, t: nat, k: nat)
    requires StackInv(s) && t < |s.stacks| && k < |s.stacks[t]| && !s.stacks[t][k].phase.Entering?
    ensures s.stacks[t][k].id < |s.onces| && s.onces[s.stacks[t][k].id].pcs[t].Running?
  {
    assert ThreadOk(s.classes, s.stacks[t], Column(s.onces, t));
    assert FrameFits(Column(s.onces, t)[s.stacks[t][k].id], s.stacks[t][k].phase);
  }

  /** A thread in the once routine has started it. */
  lemma RunningHasStarted(s: State, i: nat, t: nat)
    requires OnceInv(s) && i < |s.onces| && t < |s.stacks| && s.onces[i].pcs[t].Running?
    ensures s.onces[i].starts == 1
  {
    TotalAtLeast(s.onces[i].pcs, t, Once.WindowWeight);
  }

  lemma OneThreadMoves(s: State, s': State, t: nat)
    requires StackInv(s) && Sized(s') && s'.classes == s.classes && |s'.stacks| == |s.stacks| && t < |s.stacks|
    requires forall u :: 0 <= u < |s.stacks| && u != t ==>
      s'.stacks[u] == s.stacks[u] && Column(s'.onces, u) == Column(s.onces, u)
    requires ThreadOk(s.classes, s'.stacks[t], Column(s'.onces, t))
    ensures StackInv(s')
  {
    forall u | 0 <= u < |s.stacks| ensures ThreadOk(s.classes, s'.stacks[u], Column(s'.onces, u)) {
      if u != t { assert ThreadOk(s.classes, s.stacks[u], Column(s.onces, u)); }
    }
  }

  // The stack discipline, one move at a time.

  lemma PushOk(classes: seq<Class>, stack: seq<Frame>, column: seq<Once.Pc>, id: nat)
    requires ThreadOk(classes, stack, column) && id < |classes| && !OnStack(stack, id)
    requires stack == [] || Wants(classes, Top(stack), id)
    ensures AtRest(column[id])
    ensures ThreadOk(classes, stack + [Frame(id, Entering)], column[id := Once.Entering])
  {
    var stack', column' := stack + [Frame(id, Entering)], column[id := Once.Entering];
    forall i | 0 <= i < |column'| && !AtRest(column'[i]) ensures OnStack(stack', i) {
      if i == id { assert stack'[|stack|].id == id; } else { StillOnStack(stack, [Frame(id, Entering)], i); }
    }
    forall k | 0 <= k < |stack'| ensures FrameFits(column'[stack'[k].id], stack'[k].phase) {
      if k < |stack| { assert stack'[k] == stack[k] && stack[k].id != id; }
    }
  }

  lemma StillOnStack(stack: seq<Frame>, more: seq<Frame>, i: nat)
    requires OnStack(stack, i)
    ensures OnStack(stack + more, i)
  {
    var k :| 0 <= k < |stack| && stack[k].id == i;
    assert (stack + more)[k].id == i;
  }

  /** The top frame and the place in run() of its class change together. */
  lemma TopOk(classes: seq<Class>, stack: seq<Frame>, column: seq<Once.Pc>, phase: Phase, v: Once.Pc)
    requires ThreadOk(classes, stack, column) && stack != [] && FrameFits(v, phase)
    ensures Top(stack).id < |column|
    ensures ThreadOk(classes, WithTop(stack, phase), column[Top(stack).id := v])
  {
    var n := |stack| - 1;
    var i, stack', column' := Top(stack).id, WithTop(stack, phase), column[Top(stack).id := v];
    forall k | 0 <= k < |stack'|
      ensures stack'[k].id == stack[k].id && FrameFits(column'[stack'[k].id], stack'[k].phase)
    {
      if k < n { assert stack'[k] == stack[k] && stack[k].id != i; }
    }
    forall j | 0 <= j < |column'| && !AtRest(column'[j]) ensures OnStack(stack', j) {
      if j == i { assert stack'[n].id == i; }
      else {
        var k :| 0 <= k < |stack| && stack[k].id == j;
        assert stack'[k].id == j;
      }
    }
  }

  lemma TopKeepsRunning(classes: seq<Class>, stack: seq<Frame>, column: seq<Once.Pc>, phase: Phase)
    requires ThreadOk(classes, stack, column) && stack != [] && !Top(stack).phase.Entering? && !phase.Entering?
    ensures ThreadOk(classes, WithTop(stack, phase), column)
  {
    var i := Top(stack).id;
    assert FrameFits(column[i], stack[|stack| - 1].phase);
    TopOk(classes, stack, column, phase, column[i]);
    assert column[i := column[i]] == column;
  }

  lemma PopOk(classes: seq<Class>, stack: seq<Frame>, column: seq<Once.Pc>)
    requires ThreadOk(classes, stack, column) && stack != [] && column[Top(stack).id].Returned?
    ensures ThreadOk(classes, stack[..|stack| - 1], column)
    ensures |stack| > 1 ==> Wants(classes, stack[|stack| - 2], Top(stack).id)
  {
    var n := |stack| - 1;
    var rest := stack[..n];
    forall j | 0 <= j < |column| && !AtRest(column[j]) ensures OnStack(rest, j) {
      var k :| 0 <= k < |stack| && stack[k].id == j;
      assert rest[k].id == j;
    }
  }

  // Each move keeps the once objects and the call stacks.

  lemma EnterKeepsShape(s: State, t: nat, id: nat)
    requires OnceInv(s) && StackInv(s) && t < |s.stacks| && id < |s.onces| && !OnStack(s.stacks[t], id)
    requires s.stacks[t] == [] || Wants(s.classes, Top(s.stacks[t]), id)
    ensures OnceInv(DoEnter(s, t, id)) && StackInv(DoEnter(s, t, id))
  {
    var v := OnceMoves(s, id, Once.Call(t));
    PushOk(s.classes, s.stacks[t], Column(s.onces, t), id);
    assert AtRest(s.onces[id].pcs[t]);
    OneThreadMoves(s, DoEnter(s, t, id), t);
  }

  lemma RunKeepsShape(s: State, t: nat)
    requires OnceInv(s) && StackInv(s) && t < |s.stacks| && s.stacks[t] != []
    requires Top(s.stacks[t]).id < |s.classes| && Top(s.stacks[t]).phase.Entering?
    requires !s.onces[Top(s.stacks[t]).id].pcs[t].Returned?
    ensures OnceInv(DoRun(s, t)) && StackInv(DoRun(s, t))
  {
    var i := Top(s.stacks[t]).id;
    EnteringIsNotIdle(s, t);
    var v := OnceMoves(s, i, Once.Step(t));
    RunIs(s, t, v);
    RunKeepsStacks(s, DoRun(s, t), t, v);
  }

  lemma EnteringIsNotIdle(s: State, t: nat)
    requires StackInv(s) && t < |s.stacks| && s.stacks[t] != [] && Top(s.stacks[t]).phase.Entering?
    ensures Top(s.stacks[t]).id < |s.onces| && !s.onces[Top(s.stacks[t]).id].pcs[t].Idle?
    ensures !Once.Next(s.onces[Top(s.stacks[t]).id], Once.Step(t)).pcs[t].Idle?
  {
    assert ThreadOk(s.classes, s.stacks[t], Column(s.onces, t));
    assert FrameFits(Column(s.onces, t)[Top(s.stacks[t]).id], s.stacks[t][|s.stacks[t]| - 1].phase);
    var v := Once.NextMovesOne(s.onces[Top(s.stacks[t]).id], Once.Step(t));
  }

  lemma RunKeepsStacks(s: State, s': State, t: nat, v: Once.Pc)
    requires StackInv(s) && t < |s.stacks| && s.stacks[t] != [] && Top(s.stacks[t]).id < |s.classes|
    requires Top(s.stacks[t]).phase.Entering? && !v.Idle?
    requires Sized(s') && s'.classes == s.classes
    requires s'.stacks == s.stacks[t := if v.Running? then WithTop(s.stacks[t], Building(0)) else s.stacks[t]]
    requires forall u :: 0 <= u < |s.stacks| ==>
      Column(s'.onces, u) == if u == t then Column(s.onces, u)[Top(s.stacks[t]).id := v] else Column(s.onces, u)
    ensures StackInv(s')
  {
    assert ThreadOk(s.classes, s.stacks[t], Column(s.onces, t));
    RunOk(s.classes, s.stacks[t], Column(s.onces, t), v);
    OneThreadMoves(s, s', t);
  }

  lemma RunIs(s: State, t: nat, v: Once.Pc)
    requires Sized(s) && t < |s.stacks| && s.stacks[t] != [] && Top(s.stacks[t]).id < |s.classes|
    requires var once := OnceAct(s, Top(s.stacks[t]).id, Once.Step(t)).onces[Top(s.stacks[t]).id];
      |once.pcs| == |s.stacks| && once.pcs[t] == v
    ensures DoRun(s, t).onces == OnceAct(s, Top(s.stacks[t]).id, Once.Step(t)).onces
    ensures DoRun(s, t).stacks == s.stacks[t := if v.Running? then WithTop(s.stacks[t], Building(0)) else s.stacks[t]]
    ensures DoRun(s, t).classes == s.classes && DoRun(s, t).constructed == s.constructed
  {
  }

  lemma RunOk(classes: seq<Class>, stack: seq<Frame>, column: seq<Once.Pc>, v: Once.Pc)
    requires ThreadOk(classes, stack, column) && stack != [] && Top(stack).phase.Entering? && !v.Idle?
    ensures ThreadOk(classes, if v.Running? then WithTop(stack, Building(0)) else stack, column[Top(stack).id := v])
  {
    if v.Running? {
      TopOk(classes, stack, column, Building(0), v);
    } else {
      TopOk(classes, stack, column, Entering, v);
      assert WithTop(stack, Entering) == stack;
    }
  }

  lemma LeaveKeepsShape(s: State, t: nat)
    requires OnceInv(s) && StackInv(s) && t < |s.stacks| && s.stacks[t] != []
    requires Top(s.stacks[t]).id < |s.classes| && Top(s.stacks[t]).phase.Built?
    ensures OnceInv(DoLeave(s, t)) && StackInv(DoLeave(s, t))
  {
    var i := Top(s.stacks[t]).id;
    var v := OnceMoves(s, i, Once.Step(t));
    FrameRuns(s, t, |s.stacks[t]| - 1);
    TopOk(s.classes, s.stacks[t], Column(s.onces, t), Entering, v);
    OneThreadMoves(s, DoLeave(s, t), t);
  }

  /** Construction and registration leave run() where it is. */
  lemma PhaseKeepsShape(s: State, s': State, t: nat, phase: Phase)
    requires OnceInv(s) && StackInv(s) && t < |s.stacks| && s.stacks[t] != []
    requires !Top(s.stacks[t]).phase.Entering? && !phase.Entering?
    requires Sized(s') && s'.classes == s.classes && s'.onces == s.onces
    requires s'.stacks == s.stacks[t := WithTop(s.stacks[t], phase)]
    ensures OnceInv(s') && StackInv(s')
  {
    assert ThreadOk(s.classes, s.stacks[t], Column(s.onces, t));
    TopKeepsRunning(s.classes, s.stacks[t], Column(s.onces, t), phase);
    OneThreadMoves(s, s', t);
  }

  lemma ReturnKeepsShape(s: State, t: nat)
    requires OnceInv(s) && StackInv(s) && t < |s.stacks| && s.stacks[t] != []
    requires Top(s.stacks[t]).id < |s.classes| && s.onces[Top(s.stacks[t]).id].pcs[t].Returned?
    ensures OnceInv(DoReturn(s, t)) && StackInv(DoReturn(s, t))
  {
    assert ThreadOk(s.classes, s.stacks[t], Column(s.onces, t));
    ReturnOk(s.classes, s.stacks[t], Column(s.onces, t));
    OneThreadMoves(s, DoReturn(s, t), t);
  }

  lemma ReturnOk(classes: seq<Class>, stack: seq<Frame>, column: seq<Once.Pc>)
    requires ThreadOk(classes, stack, column) && stack != [] && column[Top(stack).id].Returned?
    ensures ThreadOk(classes, AfterReturn(stack), column)
  {
    var rest := stack[..|stack| - 1];
    PopOk(classes, stack, column);
    if rest != [] {
      TopKeepsRunning(classes, rest, column, Building(Top(rest).phase.k + 1));
    }
  }

  // Each move keeps the record of construction.

  /** Moves that construct and register nothing. */
  lemma BookkeepingMove(s: State, s': State, i: nat)
    requires BuildInv(s) && Sized(s') && s'.classes == s.classes && s'.constructed == s.constructed && s'.regs == s.regs
    requires i < |s.onces| == |s'.onces| && forall j :: 0 <= j < |s.onces| && j != i ==> s'.onces[j] == s.onces[j]
    requires ClassTells(s', i)
    requires forall t, k :: 0 <= t < |s'.stacks| && 0 <= k < |s'.stacks[t]| ==>
               OldFrame(s, t, s'.stacks[t][k]) || FrameTells(s', s'.stacks[t][k])
    ensures BuildInv(s')
  {
    forall t, k | 0 <= t < |s'.stacks| && 0 <= k < |s'.stacks[t]| ensures FrameTells(s', s'.stacks[t][k]) {
      if OldFrame(s, t, s'.stacks[t][k]) {
        var l :| 0 <= l < |s.stacks[t]| && s.stacks[t][l] == s'.stacks[t][k];
        assert FrameTells(s, s.stacks[t][l]);
      }
    }
    forall j | 0 <= j < |s'.onces| ensures ClassTells(s', j) {
      if j != i { assert ClassTells(s, j); }
    }
  }

  ghost predicate OldFrame(s: State, t: nat, frame: Frame) {
    t < |s.stacks| && exists l :: 0 <= l < |s.stacks[t]| && s.stacks[t][l] == frame
  }

  lemma EnterKeepsBuild(s: State, t: nat, id: nat)
    requires BuildInv(s) && t < |s.stacks| && id < |s.onces| && Sized(DoEnter(s, t, id))
    ensures BuildInv(DoEnter(s, t, id))
  {
    var s' := DoEnter(s, t, id);
    assert ClassTells(s, id);
    forall u, k | 0 <= u < |s'.stacks| && 0 <= k < |s'.stacks[u]|
      ensures OldFrame(s, u, s'.stacks[u][k]) || FrameTells(s', s'.stacks[u][k])
    {
      if u != t || k < |s.stacks[t]| { assert s.stacks[u][k] == s'.stacks[u][k]; }
    }
    BookkeepingMove(s, s', id);
  }

  lemma RunStepCounts(once: Once.State, t: nat)
    requires t < |once.pcs| && !once.pcs[t].Running?
    ensures var once' := Once.Next(once, Once.Step(t));
      && once'.completions == once.completions
      && once'.starts == once.starts + (if once'.pcs[t].Running? then 1 else 0)
  {
  }

  lemma FramesButTop(stack: seq<Frame>, phase: Phase, k: nat)
    requires stack != [] && k < |stack|
    ensures |WithTop(stack, phase)| == |stack|
    ensures WithTop(stack, phase)[k] == if k == |stack| - 1 then Frame(Top(stack).id, phase) else stack[k]
  {
  }

  /** Frames of a state in which only the top of one stack is new. */
  lemma OldFramesOrTop(s: State, s': State, t: nat, phase: Phase)
    requires t < |s.stacks| && s.stacks[t] != [] && s'.stacks == s.stacks[t := WithTop(s.stacks[t], phase)]
    requires FrameTells(s', Frame(Top(s.stacks[t]).id, phase))
    ensures forall u, k :: 0 <= u < |s'.stacks| && 0 <= k < |s'.stacks[u]| ==>
      OldFrame(s, u, s'.stacks[u][k]) || FrameTells(s', s'.stacks[u][k])
  {
    forall u, k | 0 <= u < |s'.stacks| && 0 <= k < |s'.stacks[u]|
      ensures OldFrame(s, u, s'.stacks[u][k]) || FrameTells(s', s'.stacks[u][k])
    {
      if u == t { FramesButTop(s.stacks[t], phase, k); }
      if u != t || k < |s.stacks[t]| - 1 { assert s.stacks[u][k] == s'.stacks[u][k]; }
    }
  }

  lemma RunKeepsBuild(s: State, t: nat)
    requires OnceInv(s) && BuildInv(s) && t < |s.stacks| && s.stacks[t] != []
    requires Top(s.stacks[t]).id < |s.classes| && !s.onces[Top(s.stacks[t]).id].pcs[t].Running?
    requires OnceInv(DoRun(s, t))
    ensures BuildInv(DoRun(s, t))
  {
    var i := Top(s.stacks[t]).id;
    var s' := DoRun(s, t);
    RunStepCounts(s.onces[i], t);
    assert ClassTells(s, i);
    assert Once.Inv(s'.onces[i]);
    if s'.onces[i].pcs[t].Running? {
      OldFramesOrTop(s, s', t, Building(0));
    } else {
      assert s'.stacks == s.stacks;
      forall u, k | 0 <= u < |s'.stacks| && 0 <= k < |s'.stacks[u]| ensures OldFrame(s, u, s'.stacks[u][k]) {}
    }
    BookkeepingMove(s, s', i);
  }

  lemma LeaveKeepsBuild(s: State, t: nat)
    requires OnceInv(s) && BuildInv(s) && t < |s.stacks| && s.stacks[t] != []
    requires Top(s.stacks[t]).id < |s.classes| && Top(s.stacks[t]).phase.Built?
    requires Sized(DoLeave(s, t))
    ensures BuildInv(DoLeave(s, t))
  {
    var i := Top(s.stacks[t]).id;
    assert FrameTells(s, s.stacks[t][|s.stacks[t]| - 1]);
    assert ClassTells(s, i);
    assert Once.Next(s.onces[i], Once.Step(t)).starts >= s.onces[i].starts;
    OldFramesOrTop(s, DoLeave(s, t), t, Entering);
    BookkeepingMove(s, DoLeave(s, t), i);
  }

  /** When a call of instance() returns, the instance is constructed and its destructor registered. */
  lemma ReturnedIsRegistered(s: State, t: nat, i: nat)
    requires OnceInv(s) && BuildInv(s) && t < |s.stacks| && i < |s.onces| && s.onces[i].pcs[t].Returned?
    ensures s.onces[i].done && s.onces[i].completions == 1 && s.constructed[i] == 1 && i in s.regs
  {
    assert Once.Places(s.onces[i]);
    Once.StoringWithinWindow(s.onces[i].pcs);
    assert ClassTells(s, i);
  }

  /** The frames after a return: only the caller's has changed. */
  lemma CallerGoesOn(classes: seq<Class>, stack: seq<Frame>, k: nat)
    requires stack != [] && (|stack| > 1 ==> Wants(classes, stack[|stack| - 2], Top(stack).id))
    requires k < |AfterReturn(stack)|
    ensures k < |stack| - 1
    ensures k == |stack| - 2 ==> stack[k].phase.Building?
    ensures k == |stack| - 2 ==> AfterReturn(stack)[k] == Frame(stack[k].id, Building(stack[k].phase.k + 1))
    ensures k < |stack| - 2 ==> AfterReturn(stack)[k] == stack[k]
  {
    var rest := stack[..|stack| - 1];
    FramesButTop(rest, Building(Top(rest).phase.k + 1), k);
  }

  lemma ReturnKeepsBuild(s: State, t: nat)
    requires OnceInv(s) && StackInv(s) && BuildInv(s) && t < |s.stacks| && s.stacks[t] != []
    requires Top(s.stacks[t]).id < |s.classes| && s.onces[Top(s.stacks[t]).id].pcs[t].Returned?
    ensures BuildInv(DoReturn(s, t))
  {
    var stack, s' := s.stacks[t], DoReturn(s, t);
    ReturnedIsRegistered(s, t, Top(stack).id);
    assert ClassTells(s, Top(stack).id);
    assert ThreadOk(s.classes, stack, Column(s.onces, t));
    PopOk(s.classes, stack, Column(s.onces, t));
    forall u, k | 0 <= u < |s'.stacks| && 0 <= k < |s'.stacks[u]|
      ensures OldFrame(s, u, s'.stacks[u][k]) || FrameTells(s', s'.stacks[u][k])
    {
      if u == t {
        ReturnFrameTells(s, t, k);
      } else {
        assert s.stacks[u][k] == s'.stacks[u][k];
      }
    }
    BookkeepingMove(s, s', Top(stack).id);
  }

  lemma ReturnFrameTells(s: State, t: nat, k: nat)
    requires BuildInv(s) && t < |s.stacks| && s.stacks[t] != [] && k < |AfterReturn(s.stacks[t])|
    requires |s.stacks[t]| > 1 ==> Wants(s.classes, s.stacks[t][|s.stacks[t]| - 2], Top(s.stacks[t]).id)
    requires Top(s.stacks[t]).id in s.regs
    ensures OldFrame(s, t, AfterReturn(s.stacks[t])[k]) || FrameTells(DoReturn(s, t), AfterReturn(s.stacks[t])[k])
  {
    var stack, n := s.stacks[t], |s.stacks[t]| - 2;
    CallerGoesOn(s.classes, stack, k);
    if k == n {
      assert FrameTells(s, stack[n]);
    } else {
      assert stack[k] == AfterReturn(stack)[k];
    }
  }

  /** Frames untouched by a construction or registration of class i. */
  lemma OtherFramesTell(s: State, s': State, t: nat, phase: Phase, i: nat)
    requires OnceInv(s) && StackInv(s) && BuildInv(s) && t < |s.stacks| && s.stacks[t] != []
    requires i == Top(s.stacks[t]).id && !Top(s.stacks[t]).phase.Entering?
    requires Sized(s') && s'.classes == s.classes && s'.stacks == s.stacks[t := WithTop(s.stacks[t], phase)]
    requires forall j :: 0 <= j < |s.constructed| && j != i ==> s'.constructed[j] == s.constructed[j]
    requires s'.regs == s.regs || s'.regs == s.regs + [i]
    requires FrameTells(s', Frame(i, phase))
    ensures FramesTell(s')
  {
    forall u, k | 0 <= u < |s'.stacks| && 0 <= k < |s'.stacks[u]| ensures FrameTells(s', s'.stacks[u][k]) {
      if u == t { FramesButTop(s.stacks[t], phase, k); }
      if u != t || k < |s.stacks[t]| - 1 {
        OtherFrameTells(s, s', t, u, k, i);
      }
    }
  }

  lemma OtherFrameTells(s: State, s': State, t: nat, u: nat, k: nat, i: nat)
    requires OnceInv(s) && StackInv(s) && BuildInv(s) && t < |s.stacks| && s.stacks[t] != []
    requires i == Top(s.stacks[t]).id && !Top(s.stacks[t]).phase.Entering?
    requires u < |s.stacks| && k < |s.stacks[u]| && (u != t || k < |s.stacks[t]| - 1)
    requires s'.classes == s.classes && |s'.constructed| == |s.constructed|
    requires forall j :: 0 <= j < |s.constructed| && j != i ==> s'.constructed[j] == s.constructed[j]
    requires s'.regs == s.regs || s'.regs == s.regs + [i]
    ensures FrameTells(s', s.stacks[u][k])
  {
    var frame := s.stacks[u][k];
    assert FrameTells(s, frame);
    if frame.id == i && !frame.phase.Entering? {
      OneBuilder(s, t, |s.stacks[t]| - 1, u, k);
    }
  }

  lemma ConstructKeepsBuild(s: State, t: nat)
    requires OnceInv(s) && StackInv(s) && BuildInv(s) && t < |s.stacks| && s.stacks[t] != []
    requires Top(s.stacks[t]).id < |s.classes| && Top(s.stacks[t]).phase.Building?
    requires Top(s.stacks[t]).phase.k >= |s.classes[Top(s.stacks[t]).id].deps|
    ensures BuildInv(DoConstruct(s, t))
  {
    var i, s' := Top(s.stacks[t]).id, DoConstruct(s, t);
    assert FrameTells(s, s.stacks[t][|s.stacks[t]| - 1]);
    FrameRuns(s, t, |s.stacks[t]| - 1);
    RunningHasStarted(s, i, t);
    assert AllDeps(s.classes, s.regs, i);
    OtherFramesTell(s, s', t, Registering, i);
    forall j | 0 <= j < |s'.onces| ensures ClassTells(s', j) { assert ClassTells(s, j); }
  }

  lemma RegisterKeepsBuild(s: State, t: nat)
    requires OnceInv(s) && StackInv(s) && BuildInv(s) && t < |s.stacks| && s.stacks[t] != []
    requires Top(s.stacks[t]).id < |s.classes| && Top(s.stacks[t]).phase.Registering?
    ensures BuildInv(DoRegister(s, t))
  {
    var i, s' := Top(s.stacks[t]).id, DoRegister(s, t);
    assert FrameTells(s, s.stacks[t][|s.stacks[t]| - 1]);
    FrameRuns(s, t, |s.stacks[t]| - 1);
    RunningHasStarted(s, i, t);
    OtherFramesTell(s, s', t, Built, i);
    forall j | 0 <= j < |s'.onces| ensures ClassTells(s', j) { assert ClassTells(s, j); }
  }

  lemma RegisterKeepsRegs(s: State, t: nat)
    requires RegInv(s) && BuildInv(s) && t < |s.stacks| && s.stacks[t] != []
    requires Top(s.stacks[t]).id < |s.classes| && Top(s.stacks[t]).phase.Registering?
    ensures RegInv(DoRegister(s, t))
  {
    var i, s' := Top(s.stacks[t]).id, DoRegister(s, t);
    assert FrameTells(s, s.stacks[t][|s.stacks[t]| - 1]);
    assert s'.regs[..|s.regs|] == s.regs;
    forall a | 0 <= a < |s'.regs| ensures s'.regs[a] < |s.classes| && AllDeps(s.classes, s'.regs[..a], s'.regs[a]) {
      if a < |s.regs| { assert s'.regs[..a] == s.regs[..a]; }
    }
    var prios := Prios(s.classes, s'.regs);
    assert prios[..|s.regs|] == Prios(s.classes, s.regs);
  }

  // Every move keeps everything.

  lemma BuilderKeepsInv(s: State, t: nat)
    requires Inv(s) && t < |s.stacks| && s.stacks[t] != [] && Top(s.stacks[t]).id < |s.classes|
    requires Top(s.stacks[t]).phase.Building?
    ensures Inv(StepThread(s, t))
  {
    var Frame(i, phase) := Top(s.stacks[t]);
    var deps := s.classes[i].deps;
    if phase.k >= |deps| {
      PhaseKeepsShape(s, DoConstruct(s, t), t, Registering);
      ConstructKeepsBuild(s, t);
    } else if deps[phase.k] < |s.onces| && !OnStack(s.stacks[t], deps[phase.k]) {
      EnterKeepsShape(s, t, deps[phase.k]);
      EnterKeepsBuild(s, t, deps[phase.k]);
    }
  }

  lemma StepKeepsInv(s: State, t: nat)
    requires Inv(s) && t < |s.stacks| && s.stacks[t] != [] && Top(s.stacks[t]).id < |s.classes|
    ensures Inv(StepThread(s, t))
  {
    match Top(s.stacks[t]).phase
    case Entering =>
      if s.onces[Top(s.stacks[t]).id].pcs[t].Returned? {
        ReturnKeepsShape(s, t);
        ReturnKeepsBuild(s, t);
      } else {
        EnteringIsNotRunning(s, t);
        RunKeepsShape(s, t);
        RunKeepsBuild(s, t);
      }
    case Building(k) => BuilderKeepsInv(s, t);
    case Registering =>
      PhaseKeepsShape(s, DoRegister(s, t), t, Built);
      RegisterKeepsBuild(s, t);
      RegisterKeepsRegs(s, t);
    case Built =>
      LeaveKeepsShape(s, t);
      LeaveKeepsBuild(s, t);
  }

  lemma EnteringIsNotRunning(s: State, t: nat)
    requires StackInv(s) && t < |s.stacks| && s.stacks[t] != [] && Top(s.stacks[t]).phase.Entering?
    ensures Top(s.stacks[t]).id < |s.onces| && !s.onces[Top(s.stacks[t]).id].pcs[t].Running?
  {
    assert ThreadOk(s.classes, s.stacks[t], Column(s.onces, t));
    assert FrameFits(Column(s.onces, t)[Top(s.stacks[t]).id], s.stacks[t][|s.stacks[t]| - 1].phase);
  }

  lemma EnterKeepsInv(s: State, t: nat, id: nat)
    requires Inv(s) && t < |s.stacks| && s.stacks[t] == [] && id < |s.onces|
    ensures Inv(DoEnter(s, t, id))
  {
    EnterKeepsShape(s, t, id);
    EnterKeepsBuild(s, t, id);
  }

  lemma NextKeepsInv(s: State, a: Action)
    requires Inv(s)
    ensures Inv(Next(s, a))
  {
    if a.t < |s.stacks| {
      match a
      case Enter(t, id) => if s.stacks[t] == [] && id < |s.onces| { EnterKeepsInv(s, t, id); }
      case Step(t) => if s.stacks[t] != [] && Top(s.stacks[t]).id < |s.classes| { StepKeepsInv(s, t); }
    }
  }

  lemma NextKeepsFrame(s: State, a: Action)
    requires Sized(s)
    ensures Next(s, a).classes == s.classes && |Next(s, a).stacks| == |s.stacks|
  {
  }

  lemma InitOnces(form: Form, n: nat, classes: seq<Class>)
    requires ValidClasses(classes)
    ensures OnceInv(Init(form, n, classes))
  {
    var s := Init(form, n, classes);
    forall i | 0 <= i < |s.onces| ensures Once.Inv(s.onces[i]) && |s.onces[i].pcs| == n {
      Once.InitHasInv(form, n);
    }
  }

  lemma InitStacks(form: Form, n: nat, classes: seq<Class>)
    requires Sized(Init(form, n, classes))
    ensures StackInv(Init(form, n, classes))
  {
    var s := Init(form, n, classes);
    forall t | 0 <= t < n ensures ThreadOk(classes, s.stacks[t], Column(s.onces, t)) {
      forall i | 0 <= i < |s.onces| ensures Column(s.onces, t)[i].Idle? {}
    }
  }

  lemma InitBuild(form: Form, n: nat, classes: seq<Class>)
    requires Sized(Init(form, n, classes))
    ensures BuildInv(Init(form, n, classes)) && RegInv(Init(form, n, classes))
  {
    var s := Init(form, n, classes);
    forall i | 0 <= i < |s.onces| ensures ClassTells(s, i) {}
    assert Prios(classes, []) == [];
  }

  lemma InitHasInv(form: Form, n: nat, classes: seq<Class>)
    requires ValidClasses(classes)
    ensures Inv(Init(form, n, classes))
  {
    InitOnces(form, n, classes);
    InitStacks(form, n, classes);
    InitBuild(form, n, classes);
  }

  lemma {:induction false} RunKeepsInv(s: State, schedule: seq<Action>)
    requires Inv(s)
    ensures Inv(Run(s, schedule)) && Run(s, schedule).classes == s.classes && |Run(s, schedule).stacks| == |s.stacks|
  {
    if schedule != [] {
      RunKeepsInv(s, schedule[..|schedule| - 1]);
      NextKeepsInv(Run(s, schedule[..|schedule| - 1]), schedule[|schedule| - 1]);
      NextKeepsFrame(Run(s, schedule[..|schedule| - 1]), schedule[|schedule| - 1]);
    }
  }

  // What classes need.

  /** A chain of at most k calls of instance() leads from the constructor of x to y. */
  ghost predicate NeedsIn(classes: seq<Class>, x: nat, y: nat, k: nat)
    decreases k
  {
    k > 0 && x < |classes| && exists d :: d in classes[x].deps && (d == y || NeedsIn(classes, d, y, k - 1))
  }

  /** The constructor of x calls instance() of y, directly or through others. */
  ghost predicate Needs(classes: seq<Class>, x: nat, y: nat) {
    exists k: nat :: NeedsIn(classes, x, y, k)
  }

  /** Each class in the list comes after all it needs. */
  ghost predicate DepsFirst(classes: seq<Class>, list: seq<nat>) {
    forall a :: 0 <= a < |list| ==> list[a] < |classes| && AllDeps(classes, list[..a], list[a])
  }

  /** Whatever is needed by something in such a list comes before it. */
  lemma {:induction false} NeededEarlier(classes: seq<Class>, list: seq<nat>, b: nat, y: nat, k: nat) returns (a: nat)
    requires DepsFirst(classes, list) && b < |list| && NeedsIn(classes, list[b], y, k)
    ensures a < b && list[a] == y
    decreases k
  {
    var d :| d in classes[list[b]].deps && (d == y || NeedsIn(classes, d, y, k - 1));
    assert d in list[..b];
    a :| 0 <= a < b && list[a] == d;
    if d != y {
      a := NeededEarlier(classes, list, a, y, k - 1);
    }
  }

  // What it means for the users of singletons.

  /**
   * In every run, whichever form the increase takes: each class is constructed at most once,
   * and a thread whose instance() call has returned got a completely constructed object whose
   * destructor is registered.
   */
  lemma ConstructedOnceAndCompletely(form: Form, n: nat, classes: seq<Class>, schedule: seq<Action>)
    requires ValidClasses(classes)
    ensures var s := Run(Init(form, n, classes), schedule);
      && Sized(s) && s.classes == classes && |s.stacks| == n
      && (forall i :: 0 <= i < |classes| ==> s.constructed[i] <= 1)
      && (forall i, t :: 0 <= i < |classes| && 0 <= t < n && s.onces[i].pcs[t].Returned? ==>
            s.onces[i].done && s.constructed[i] == 1 && i in s.regs)
  {
    InitHasInv(form, n, classes);
    RunKeepsInv(Init(form, n, classes), schedule);
    var s := Run(Init(form, n, classes), schedule);
    forall i | 0 <= i < |classes| ensures s.constructed[i] <= 1 { assert ClassTells(s, i); }
    forall i, t | 0 <= i < |classes| && 0 <= t < n && s.onces[i].pcs[t].Returned?
      ensures s.onces[i].done && s.constructed[i] == 1 && i in s.regs
    {
      ReturnedIsRegistered(s, t, i);
    }
  }

  /** The classes whose destructors the routines with the given numbers are. */
  function ClassesOf(regs: seq<nat>, ids: seq<nat>): seq<nat> {
    seq(|ids|, k requires 0 <= k < |ids| => if ids[k] < |regs| then regs[ids[k]] else 0)
  }

  /** What exec() destroys, in order. */
  function Destroyed(s: State): seq<nat> {
    ClassesOf(s.regs, ExitSpec.After(History(s.exitList, [], |s.regs|), Exec).ran)
  }

  lemma ClassesOfSum(regs: seq<nat>, a: seq<nat>, b: seq<nat>)
    ensures ClassesOf(regs, a + b) == ClassesOf(regs, a) + ClassesOf(regs, b)
  {
  }

  lemma Without(b: seq<nat>, k: nat) returns (rest: seq<nat>)
    requires k < |b|
    ensures multiset(rest) == multiset(b) - multiset{b[k]}
    ensures forall regs: seq<nat> ::
      multiset(ClassesOf(regs, b)) == multiset(ClassesOf(regs, rest)) + multiset(ClassesOf(regs, [b[k]]))
  {
    rest := b[..k] + b[k + 1..];
    assert b == b[..k] + ([b[k]] + b[k + 1..]);
    forall regs: seq<nat>
      ensures multiset(ClassesOf(regs, b)) == multiset(ClassesOf(regs, rest)) + multiset(ClassesOf(regs, [b[k]]))
    {
      ClassesOfSum(regs, b[..k], [b[k]] + b[k + 1..]);
      ClassesOfSum(regs, [b[k]], b[k + 1..]);
      ClassesOfSum(regs, b[..k], b[k + 1..]);
    }
  }

  lemma {:induction false} SameClasses(regs: seq<nat>, a: seq<nat>, b: seq<nat>)
    requires multiset(a) == multiset(b)
    ensures multiset(ClassesOf(regs, a)) == multiset(ClassesOf(regs, b))
    decreases |a|
  {
    if a == [] {
      assert |multiset(b)| == |b|;
    } else {
      assert a[0] in multiset(b);
      var k :| 0 <= k < |b| && b[k] == a[0];
      var rest := Without(b, k);
      assert a == [a[0]] + a[1..];
      SameClasses(regs, a[1..], rest);
      ClassesOfSum(regs, [a[0]], a[1..]);
    }
  }

  /**
   * The exit list holds one task per registered class, and when no instance() call is in
   * progress the registered classes are exactly the constructed ones: exec() at exit destroys
   * each class as often as it was constructed, once or not at all.
   */
  lemma DestroyedOnceIffConstructed(form: Form, n: nat, classes: seq<Class>, schedule: seq<Action>)
    requires ValidClasses(classes)
    ensures var s := Run(Init(form, n, classes), schedule);
      && Sized(s) && s.classes == classes
      && Distinct(s.regs)
      && multiset(Ids(s.exitList)) == multiset(Numbers(|s.regs|))
      && multiset(Destroyed(s)) == multiset(s.regs)
      && ((forall t :: 0 <= t < |s.stacks| ==> s.stacks[t] == []) ==>
            forall i :: 0 <= i < |classes| ==>
              (i in s.regs <==> s.constructed[i] == 1) && multiset(Destroyed(s))[i] == s.constructed[i])
  {
    InitHasInv(form, n, classes);
    RunKeepsInv(Init(form, n, classes), schedule);
    var s := Run(Init(form, n, classes), schedule);
    var prios := Prios(classes, s.regs);
    PendingIsRegistered(prios);
    EveryRoutineAccountedFor(seq(|prios|, i requires 0 <= i < |prios| => Register(prios[i])));
    SameClasses(s.regs, Ids(s.exitList), Numbers(|s.regs|));
    assert ClassesOf(s.regs, Numbers(|s.regs|)) == s.regs;
    assert ExitSpec.After(History(s.exitList, [], |s.regs|), Exec).ran == Ids(s.exitList);
    if forall t :: 0 <= t < |s.stacks| ==> s.stacks[t] == [] {
      forall i: nat | i < |classes|
        ensures (i in s.regs <==> s.constructed[i] == 1) && multiset(s.regs)[i] == s.constructed[i]
      {
        AtRestRegistered(s, i);
      }
    }
  }

  lemma AtRestRegistered(s: State, i: nat)
    requires Inv(s) && i < |s.onces| && forall t :: 0 <= t < |s.stacks| ==> s.stacks[t] == []
    ensures (i in s.regs <==> s.constructed[i] == 1) && multiset(s.regs)[i] == s.constructed[i]
  {
    assert ClassTells(s, i);
    QuiescentIsComplete(s, i);
    CountsOnce(s.regs, i);
  }

  lemma {:induction false} CountsOnce(list: seq<nat>, i: nat)
    requires Distinct(list)
    ensures multiset(list)[i] == if i in list then 1 else 0
  {
    if list != [] {
      var n := |list| - 1;
      CountsOnce(list[..n], i);
      assert list == list[..n] + [list[n]];
    }
  }

  lemma QuiescentIsComplete(s: State, i: nat)
    requires Inv(s) && i < |s.onces| && forall t :: 0 <= t < |s.stacks| ==> s.stacks[t] == []
    ensures s.onces[i].starts >= 1 ==> s.onces[i].completions >= 1
  {
    var once := s.onces[i];
    assert Once.Inv(once);
    forall t | 0 <= t < |once.pcs| ensures Once.WindowWeight(once.pcs[t]) == 0 {
      assert ThreadOk(s.classes, s.stacks[t], Column(s.onces, t));
      assert AtRest(Column(s.onces, t)[i]);
    }
    TotalZero(once.pcs, Once.WindowWeight);
  }

  /** What the lifetimes ask for: shorter first, and of equal ones the later registered first. */
  predicate ShouldPrecede(x: int, a: nat, y: int, b: nat) {
    x < y || (x == y && a > b)
  }

  /** Negation turns the wanted order into exit priorities, unless one of two different lifetimes is INT_MIN. */
  lemma NegationOrdersIff(x: int, a: nat, y: int, b: nat)
    requires INT_MIN <= x <= INT_MAX && INT_MIN <= y <= INT_MAX && a != b
    ensures (Before(Task(a, Negated(x)), Task(b, Negated(y))) <==> ShouldPrecede(x, a, y, b))
       <==> (x == y || (x != INT_MIN && y != INT_MIN))
  {
  }

  /**
   * Destruction order, for any two registered classes: the exit list has them in the order
   * their lifetimes ask for, ties in reverse order of registration, exactly if they have the
   * same lifetime or neither is lifetime_short (INT_MIN), whose negation overflows.
   */
  lemma DestructionOrderIff(form: Form, n: nat, classes: seq<Class>, schedule: seq<Action>, s: State, i: nat, j: nat)
    requires ValidClasses(classes) && s == Run(Init(form, n, classes), schedule)
    requires i < |s.exitList| && j < |s.exitList| && i != j
    ensures var a, b := s.exitList[i].id, s.exitList[j].id;
      && a < |s.regs| && b < |s.regs| && a != b && s.regs[a] < |classes| && s.regs[b] < |classes|
      && var x, y := classes[s.regs[a]].lifetime, classes[s.regs[b]].lifetime;
      ((i < j <==> ShouldPrecede(x, a, y, b)) <==> (x == y || (x != INT_MIN && y != INT_MIN)))
  {
    InitHasInv(form, n, classes);
    RunKeepsInv(Init(form, n, classes), schedule);
    ListedTask(s, i);
    ListedTask(s, j);
    var a, b := s.exitList[i].id, s.exitList[j].id;
    RegisteredIsSorted(Prios(classes, s.regs));
    assert if i < j then Before(s.exitList[i], s.exitList[j]) else Before(s.exitList[j], s.exitList[i]);
    NegationOrdersIff(classes[s.regs[a]].lifetime, a, classes[s.regs[b]].lifetime, b);
  }

  lemma ListedTask(s: State, i: nat)
    requires RegInv(s) && i < |s.exitList|
    ensures var a := s.exitList[i].id;
      a < |s.regs| && s.regs[a] < |s.classes| && s.exitList[i] == Task(a, Negated(s.classes[s.regs[a]].lifetime))
  {
    var prios := Prios(s.classes, s.regs);
    RegisteredIsSorted(prios);
    assert s.exitList[i] in multiset(s.exitList);
    assert s.exitList[i] in Tasks(prios);
    assert s.regs[s.exitList[i].id] in s.regs;
  }

  /**
   * If the constructor of a class asks for another instance, itself or through others, whose
   * lifetime is not shorter, the class is destroyed before that instance, exactly unless its own
   * lifetime is lifetime_short and the other's is not.
   */
  lemma DestroyedBeforeWhatItUsedIff(form: Form, n: nat, classes: seq<Class>, schedule: seq<Action>,
                                     s: State, i: nat, dep: nat)
    requires ValidClasses(classes) && s == Run(Init(form, n, classes), schedule)
    requires i < |s.exitList| && s.exitList[i].id < |s.regs| && s.regs[s.exitList[i].id] < |classes|
    requires var user := classes[s.regs[s.exitList[i].id]];
      Needs(classes, s.regs[s.exitList[i].id], dep) && dep < |classes| && classes[dep].lifetime >= user.lifetime
    ensures var user := classes[s.regs[s.exitList[i].id]];
      (exists j :: i < j < |s.exitList| && s.exitList[j].id < |s.regs| && s.regs[s.exitList[j].id] == dep)
      <==> (user.lifetime == INT_MIN ==> classes[dep].lifetime == INT_MIN)
  {
    InitHasInv(form, n, classes);
    RunKeepsInv(Init(form, n, classes), schedule);
    var a := s.exitList[i].id;
    var m: nat :| NeedsIn(classes, s.regs[a], dep, m);
    var b := NeededEarlier(classes, s.regs, a, dep, m);
    var j := ListedAt(s, b);
    DestructionOrderIff(form, n, classes, schedule, s, i, j);
    if k :| i < k < |s.exitList| && s.exitList[k].id < |s.regs| && s.regs[s.exitList[k].id] == dep {
      DestructionOrderIff(form, n, classes, schedule, s, i, k);
      assert s.exitList[k].id == b;
    }
  }

  lemma ListedAt(s: State, b: nat) returns (j: nat)
    requires RegInv(s) && b < |s.regs|
    ensures j < |s.exitList| && s.exitList[j].id == b
  {
    var prios := Prios(s.classes, s.regs);
    RegisteredIsSorted(prios);
    assert Tasks(prios)[b] in multiset(Tasks(prios));
    assert Tasks(prios)[b] in s.exitList;
    j :| 0 <= j < |s.exitList| && s.exitList[j] == Tasks(prios)[b];
  }

  // Acyclic constructors cannot deadlock.

  /** A rank above 0 says that a class needs only classes of lower ranks above 0, so never itself. */
  ghost predicate Ranks(classes: seq<Class>, rank: seq<nat>) {
    |rank| == |classes| &&
    forall i :: 0 <= i < |classes| && rank[i] > 0 ==>
      forall d :: d in classes[i].deps ==> d < |rank| && 0 < rank[d] < rank[i]
  }

  ghost predicate Acyclic(classes: seq<Class>, rank: seq<nat>) {
    Ranks(classes, rank) && forall i :: 0 <= i < |rank| ==> rank[i] > 0
  }

  predicate StackRanked(rank: seq<nat>, stack: seq<Frame>) {
    forall k :: 0 <= k < |stack| ==> stack[k].id < |rank| && rank[stack[k].id] > 0
  }

  ghost predicate AllForms(s: State, form: Form) {
    forall i :: 0 <= i < |s.onces| ==> s.onces[i].form == form
  }

  lemma NextKeepsForms(s: State, a: Action, form: Form)
    requires OnceInv(s) && AllForms(s, form)
    ensures AllForms(Next(s, a), form)
  {
    if a.t < |s.stacks| {
      if a.Enter? {
        if a.id < |s.onces| { var v := Once.NextMovesOne(s.onces[a.id], Once.Call(a.t)); }
      } else if s.stacks[a.t] != [] && Top(s.stacks[a.t]).id < |s.classes| {
        var i, b := OncesAfter(s, a.t);
        var v := Once.NextMovesOne(s.onces[i], b);
      }
    }
  }

  lemma {:induction false} RunKeepsForms(s: State, schedule: seq<Action>, form: Form)
    requires Inv(s) && AllForms(s, form)
    ensures AllForms(Run(s, schedule), form)
  {
    if schedule != [] {
      RunKeepsForms(s, schedule[..|schedule| - 1], form);
      RunKeepsInv(s, schedule[..|schedule| - 1]);
      NextKeepsForms(Run(s, schedule[..|schedule| - 1]), schedule[|schedule| - 1], form);
    }
  }

  /** Ranks fall towards the top of a call stack. */
  lemma {:induction false} RanksFall(classes: seq<Class>, rank: seq<nat>, stack: seq<Frame>, k: nat, l: nat)
    requires Ranks(classes, rank) && StackOk(classes, stack) && k < l < |stack|
    requires rank[stack[k].id] > 0
    ensures 0 < rank[stack[l].id] < rank[stack[k].id]
    ensures rank[stack[l].id] < rank[stack[k].id]
  {
    if k < l - 1 {
      RanksFall(classes, rank, stack, k, l - 1);
    }
    assert Wants(classes, stack[l - 1], stack[l].id);
    assert stack[l].id in classes[stack[l - 1].id].deps;
  }

  /** A thread in instance_init() can always go on. */
  lemma BuilderMoves(s: State, rank: seq<nat>, t: nat)
    requires Inv(s) && Ranks(s.classes, rank) && t < |s.stacks| && s.stacks[t] != []
    requires StackRanked(rank, s.stacks[t]) && !Top(s.stacks[t]).phase.Entering?
    ensures Next(s, Step(t)) != s
  {
    var stack := s.stacks[t];
    var n := |stack| - 1;
    assert ThreadOk(s.classes, stack, Column(s.onces, t));
    var Frame(i, phase) := stack[n];
    if phase.Building? && phase.k < |s.classes[i].deps| {
      var d := s.classes[i].deps[phase.k];
      assert d in s.classes[i].deps;
      if OnStack(stack, d) {
        var k :| 0 <= k < |stack| && stack[k].id == d;
        if k < n { RanksFall(s.classes, rank, stack, k, n); }
        assert false;
      }
      assert |Next(s, Step(t)).stacks[t]| == |stack| + 1;
    } else {
      FramesButTop(stack, if phase.Building? then Registering else if phase.Registering? then Built else Entering, n);
      assert Next(s, Step(t)).stacks[t][n] != stack[n];
    }
  }

  /** A thread in run() goes on unless it spins on a class that another thread is constructing. */
  lemma RunnerMoves(s: State, t: nat)
    requires Inv(s) && t < |s.stacks| && s.stacks[t] != [] && Top(s.stacks[t]).phase.Entering?
    requires Top(s.stacks[t]).id < |s.onces|
    requires !s.onces[Top(s.stacks[t]).id].pcs[t].Spinning? || s.onces[Top(s.stacks[t]).id].done
    ensures Next(s, Step(t)) != s
  {
    var stack, i := s.stacks[t], Top(s.stacks[t]).id;
    assert ThreadOk(s.classes, stack, Column(s.onces, t));
    assert FrameFits(Column(s.onces, t)[i], stack[|stack| - 1].phase);
    if s.onces[i].pcs[t].Returned? {
      assert |Next(s, Step(t)).stacks[t]| == |stack| - 1;
    } else {
      OnceStepMoves(s.onces[i], t);
      assert StepThread(s, t) == DoRun(s, t);
      assert DoRun(s, t).onces[i].pcs[t] != s.onces[i].pcs[t];
    }
  }

  lemma OnceStepMoves(once: Once.State, t: nat)
    requires t < |once.pcs| && !AtRest(once.pcs[t]) && (once.pcs[t].Spinning? ==> once.done)
    ensures |Once.Next(once, Once.Step(t)).pcs| == |once.pcs| && Once.Next(once, Once.Step(t)).pcs[t] != once.pcs[t]
  {
  }

  /** A spinning thread waits for a class on another thread's call stack. */
  lemma SpinnerHasBuilder(s: State, form: Form, t: nat) returns (v: nat, k: nat)
    requires OnceInv(s) && StackInv(s) && AllForms(s, form) && Once.Sound(form, |s.stacks|)
    requires t < |s.stacks| && s.stacks[t] != [] && Top(s.stacks[t]).id < |s.onces|
    requires var once := s.onces[Top(s.stacks[t]).id]; once.pcs[t].Spinning? && !once.done
    ensures v < |s.stacks| && k < |s.stacks[v]| && s.stacks[v][k].id == Top(s.stacks[t]).id
    ensures !s.onces[s.stacks[v][k].id].pcs[v].Spinning?
    ensures StackOk(s.classes, s.stacks[v])
  {
    var i := Top(s.stacks[t]).id;
    v := Once.SpinnersHaveAWinner(s.onces[i], t);
    assert ThreadOk(s.classes, s.stacks[v], Column(s.onces, v));
    assert !AtRest(Column(s.onces, v)[i]);
    k :| 0 <= k < |s.stacks[v]| && s.stacks[v][k].id == i;
  }

  /** From any waiting thread a chain of winners leads to one that can go on. */
  lemma SomeoneMoves(s: State, rank: seq<nat>, form: Form, t: nat) returns (w: nat)
    requires Inv(s) && Acyclic(s.classes, rank) && AllForms(s, form) && Once.Sound(form, |s.stacks|)
    requires t < |s.stacks| && s.stacks[t] != [] && Top(s.stacks[t]).id < |rank|
    ensures w < |s.stacks| && Next(s, Step(w)) != s
    decreases rank[Top(s.stacks[t]).id], s.onces[Top(s.stacks[t]).id].pcs[t].Spinning?
  {
    if CanMove(s, t) {
      MoverMoves(s, rank, t);
      w := t;
    } else {
      var v, k := SpinnerHasBuilder(s, form, t);
      TopRank(s.classes, rank, s.stacks[v], k);
      w := SomeoneMoves(s, rank, form, v);
    }
  }

  predicate CanMove(s: State, t: nat)
    requires Sized(s) && t < |s.stacks| && s.stacks[t] != [] && Top(s.stacks[t]).id < |s.onces|
  {
    var i := Top(s.stacks[t]).id;
    !Top(s.stacks[t]).phase.Entering? || !s.onces[i].pcs[t].Spinning? || s.onces[i].done
  }

  lemma MoverMoves(s: State, rank: seq<nat>, t: nat)
    requires Inv(s) && Acyclic(s.classes, rank) && t < |s.stacks| && s.stacks[t] != []
    requires Top(s.stacks[t]).id < |s.onces| && CanMove(s, t)
    ensures Next(s, Step(t)) != s
  {
    if Top(s.stacks[t]).phase.Entering? {
      RunnerMoves(s, t);
    } else {
      assert ThreadOk(s.classes, s.stacks[t], Column(s.onces, t));
      BuilderMoves(s, rank, t);
    }
  }

  lemma TopRank(classes: seq<Class>, rank: seq<nat>, stack: seq<Frame>, k: nat)
    requires Acyclic(classes, rank) && StackOk(classes, stack) && k < |stack|
    ensures rank[Top(stack).id] <= rank[stack[k].id]
    ensures Top(stack).id != stack[k].id ==> rank[Top(stack).id] < rank[stack[k].id]
  {
    if k < |stack| - 1 {
      RanksFall(classes, rank, stack, k, |stack| - 1);
    }
  }

  /**
   * No deadlock: if constructors do not need each other in a circle and the increase is sound,
   * then in every reachable state with an instance() call in progress some thread can go on.
   */
  lemma NoDeadlock(form: Form, n: nat, classes: seq<Class>, rank: seq<nat>, schedule: seq<Action>, s: State, t: nat)
    requires ValidClasses(classes) && Acyclic(classes, rank) && Once.Sound(form, n)
    requires s == Run(Init(form, n, classes), schedule) && t < |s.stacks| && s.stacks[t] != []
    ensures exists w: nat :: w < |s.stacks| && Next(s, Step(w)) != s
  {
    InitHasInv(form, n, classes);
    RunKeepsInv(Init(form, n, classes), schedule);
    RunKeepsForms(Init(form, n, classes), schedule, form);
    assert ThreadOk(s.classes, s.stacks[t], Column(s.onces, t));
    var w := SomeoneMoves(s, rank, form, t);
  }
}
