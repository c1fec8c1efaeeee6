/**
 * Every instance() call returns, if classes do not need each other in a circle and the increase
 * is sound: each step that is not futile takes away some of the work that is left.
 */
module SingletonProgress {
  import opened Atomics
  import opened Sums
  import opened Singletons
  import Once = ThreadOnce

  /** Steps of the calls that a constructor makes from its k-th dependency on, if all have to be constructed. */
  function Calls(classes: seq<Class>, rank: seq<nat>, i: nat, k: nat): nat
    requires Ranks(classes, rank) && i < |classes| && rank[i] > 0
    decreases rank[i], if k < |classes[i].deps| then |classes[i].deps| - k else 0
  {
    if k >= |classes[i].deps| then 0
    else
      var d := classes[i].deps[k];
      assert d in classes[i].deps;
      9 + Calls(classes, rank, d, 0) + Calls(classes, rank, i, k + 1)
  }

  /** Steps in run() around the routine. */
  function OnceWork(pc: Once.Pc): nat {
    match pc
    case Entering => 8
    case Adding => 7
    case Reading => 6
    case Spinning => 2
    case Storing => 2
    case Returned => 1
    case _ => 0
  }

  /** Work left for the innermost call of a thread. */
  function TopWork(classes: seq<Class>, rank: seq<nat>, frame: Frame, pc: Once.Pc): nat
    requires Ranks(classes, rank) && frame.id < |classes| && rank[frame.id] > 0
  {
    match frame.phase
    case Entering =>
      OnceWork(pc) + (if pc.Entering? || pc.Adding? || pc.Reading? then Calls(classes, rank, frame.id, 0) else 0)
    case Building(k) => Calls(classes, rank, frame.id, k) + 5
    case Registering => 4
    case Built => 3
  }

  /** Work left for the calls that wait for an inner one to return. */
  function Below(classes: seq<Class>, rank: seq<nat>, stack: seq<Frame>): nat
    requires Ranks(classes, rank) && StackRanked(rank, stack)
  {
    if stack == [] then 0
    else
      var frame := stack[|stack| - 1];
      Below(classes, rank, stack[..|stack| - 1])
      + (if frame.phase.Building? then Calls(classes, rank, frame.id, frame.phase.k + 1) + 5 else 0)
  }

  function StackWork(classes: seq<Class>, rank: seq<nat>, stack: seq<Frame>, column: seq<Once.Pc>): nat
    requires Ranks(classes, rank) && StackRanked(rank, stack)
    requires |column| == |classes|
  {
    if stack == [] then 0
    else
      Below(classes, rank, stack[..|stack| - 1]) + TopWork(classes, rank, Top(stack), column[Top(stack).id])
  }

  function WorkOf(s: State, rank: seq<nat>, t: nat): nat
    requires Sized(s) && Ranks(s.classes, rank) && t < |s.stacks| && StackRanked(rank, s.stacks[t])
  {
    StackWork(s.classes, rank, s.stacks[t], Column(s.onces, t))
  }

  /** A step of one thread leaves the others' stacks and places alone. */
  lemma OthersStand(s: State, t: nat, u: nat)
    requires OnceInv(s) && t < |s.stacks| && u < |s.stacks| && u != t
    ensures Next(s, Step(t)).stacks[u] == s.stacks[u] && Column(Next(s, Step(t)).onces, u) == Column(s.onces, u)
  {
    if s.stacks[t] != [] && Top(s.stacks[t]).id < |s.classes| {
      var i, a := OncesAfter(s, t);
      var stack := StacksAfter(s, t);
      var v := OnceMoves(s, i, a);
    }
  }

  lemma SameBelow(classes: seq<Class>, rank: seq<nat>, stack: seq<Frame>, phase: Phase)
    requires stack != [] && Ranks(classes, rank) && StackRanked(rank, stack)
    ensures var stack' := WithTop(stack, phase);
      && StackRanked(rank, stack') && stack' != [] && Top(stack') == Frame(Top(stack).id, phase)
      && stack'[..|stack'| - 1] == stack[..|stack| - 1]
  {
  }

  /** What a step of thread t means for its work. */
  ghost predicate Lowers(s: State, s': State, rank: seq<nat>, t: nat)
    requires Sized(s) && Ranks(s.classes, rank) && t < |s.stacks| && StackRanked(rank, s.stacks[t])
  {
    && Sized(s') && s'.classes == s.classes && |s'.stacks| == |s.stacks| && StackRanked(rank, s'.stacks[t])
    && (s' == s || WorkOf(s', rank, t) < WorkOf(s, rank, t))
  }

  /** A thread in run(), outside the routine. */
  lemma RunWorks(s: State, rank: seq<nat>, t: nat)
    requires OnceInv(s) && StackInv(s) && Ranks(s.classes, rank) && t < |s.stacks| && StackRanked(rank, s.stacks[t])
    requires s.stacks[t] != [] && Top(s.stacks[t]).id < |s.classes| && Top(s.stacks[t]).phase.Entering?
    requires !s.onces[Top(s.stacks[t]).id].pcs[t].Returned?
    ensures Lowers(s, DoRun(s, t), rank, t)
  {
    var stack, i := s.stacks[t], Top(s.stacks[t]).id;
    EnteringIsNotRunning(s, t);
    var v := OnceMoves(s, i, Once.Step(t));
    RunIs(s, t, v);
    OnceStepWorks(s.onces[i], t);
    RunWork(s.classes, rank, stack, Column(s.onces, t), v);
    RunLowers(s, DoRun(s, t), rank, t, v);
    if v == s.onces[i].pcs[t] {
      FutileRun(s, t, v);
    }
  }

  lemma RunLowers(s: State, s': State, rank: seq<nat>, t: nat, v: Once.Pc)
    requires Sized(s) && Ranks(s.classes, rank) && t < |s.stacks| && StackRanked(rank, s.stacks[t])
    requires s.stacks[t] != [] && Top(s.stacks[t]).id < |s.classes|
    requires Sized(s') && s'.classes == s.classes
    requires var stack' := if v.Running? then WithTop(s.stacks[t], Building(0)) else s.stacks[t];
      && s'.stacks == s.stacks[t := stack'] && StackRanked(rank, stack')
      && Column(s'.onces, t) == Column(s.onces, t)[Top(s.stacks[t]).id := v]
      && (v != Column(s.onces, t)[Top(s.stacks[t]).id] ==>
            StackWork(s.classes, rank, stack', Column(s'.onces, t))
            < StackWork(s.classes, rank, s.stacks[t], Column(s.onces, t)))
    ensures StackRanked(rank, s'.stacks[t])
    ensures v != s.onces[Top(s.stacks[t]).id].pcs[t] ==> Lowers(s, s', rank, t)
  {
  }

  /** A test of done in vain changes nothing. */
  lemma FutileRun(s: State, t: nat, v: Once.Pc)
    requires Sized(s) && t < |s.stacks| && s.stacks[t] != [] && Top(s.stacks[t]).id < |s.classes|
    requires s.onces[Top(s.stacks[t]).id].pcs[t].Spinning?
    requires Once.Next(s.onces[Top(s.stacks[t]).id], Once.Step(t)).pcs[t].Spinning?
    ensures DoRun(s, t) == s
  {
    var i := Top(s.stacks[t]).id;
    assert Once.Next(s.onces[i], Once.Step(t)) == s.onces[i];
    assert s.onces[i := s.onces[i]] == s.onces;
  }

  lemma RunWork(classes: seq<Class>, rank: seq<nat>, stack: seq<Frame>, column: seq<Once.Pc>, v: Once.Pc)
    requires Ranks(classes, rank) && StackRanked(rank, stack) && |column| == |classes|
    requires stack != [] && Top(stack).phase.Entering?
    requires var pc := column[Top(stack).id];
      && (v == pc || OnceWork(v) < OnceWork(pc)) && !v.Entering?
      && (v.Running? ==> OnceWork(pc) >= 6 && (pc.Adding? || pc.Reading?))
      && (v.Adding? || v.Reading? ==> pc.Entering? || pc.Adding?)
    ensures var stack' := if v.Running? then WithTop(stack, Building(0)) else stack;
      && StackRanked(rank, stack')
      && (v != column[Top(stack).id] ==>
            StackWork(classes, rank, stack', column[Top(stack).id := v]) < StackWork(classes, rank, stack, column))
  {
    SameBelow(classes, rank, stack, Building(0));
  }

  /** The steps of run() lower its own work, winning as much as losing. */
  lemma OnceStepWorks(once: Once.State, t: nat)
    requires t < |once.pcs| && !once.pcs[t].Idle? && !once.pcs[t].Running?
    ensures var pc, pc' := once.pcs[t], Once.Next(once, Once.Step(t)).pcs[t];
      && |Once.Next(once, Once.Step(t)).pcs| == |once.pcs|
      && (pc' == pc || OnceWork(pc') < OnceWork(pc))
      && (pc'.Running? ==> OnceWork(pc) >= 6 && (pc.Adding? || pc.Reading?))
      && (pc'.Adding? || pc'.Reading? ==> pc.Entering? || pc.Adding?)
      && !pc'.Entering?
      && (pc' == pc ==> pc.Spinning? || pc.Returned?)
  {
  }

  lemma PushedWork(classes: seq<Class>, rank: seq<nat>, stack: seq<Frame>, column: seq<Once.Pc>, column': seq<Once.Pc>)
    requires Ranks(classes, rank) && StackRanked(rank, stack) && stack != [] && |column| == |column'| == |classes|
    requires Top(stack).phase.Building? && Top(stack).phase.k < |classes[Top(stack).id].deps|
    requires var d := classes[Top(stack).id].deps[Top(stack).phase.k];
      d < |classes| && column'[d].Entering?
    ensures var d := classes[Top(stack).id].deps[Top(stack).phase.k];
      && StackRanked(rank, stack + [Frame(d, Entering)])
      && StackWork(classes, rank, stack + [Frame(d, Entering)], column') < StackWork(classes, rank, stack, column)
  {
    var d := classes[Top(stack).id].deps[Top(stack).phase.k];
    assert d in classes[Top(stack).id].deps;
    assert (stack + [Frame(d, Entering)])[..|stack|] == stack;
  }

  lemma EnterWorks(s: State, rank: seq<nat>, t: nat)
    requires OnceInv(s) && StackInv(s) && Ranks(s.classes, rank) && t < |s.stacks| && StackRanked(rank, s.stacks[t])
    requires s.stacks[t] != [] && Top(s.stacks[t]).id < |s.classes| && Top(s.stacks[t]).phase.Building?
    requires Top(s.stacks[t]).phase.k < |s.classes[Top(s.stacks[t]).id].deps|
    requires var d := s.classes[Top(s.stacks[t]).id].deps[Top(s.stacks[t]).phase.k];
      d < |s.classes| && !OnStack(s.stacks[t], d)
    ensures Lowers(s, DoEnter(s, t, s.classes[Top(s.stacks[t]).id].deps[Top(s.stacks[t]).phase.k]), rank, t)
  {
    var stack := s.stacks[t];
    var d := s.classes[Top(stack).id].deps[Top(stack).phase.k];
    assert ThreadOk(s.classes, stack, Column(s.onces, t));
    assert AtRest(Column(s.onces, t)[d]);
    var v := OnceMoves(s, d, Once.Call(t));
    PushedWork(s.classes, rank, stack, Column(s.onces, t), Column(DoEnter(s, t, d).onces, t));
  }

  /** Construction and registration. */
  lemma PhaseWorks(s: State, s': State, rank: seq<nat>, t: nat, phase: Phase)
    requires Sized(s) && Ranks(s.classes, rank) && t < |s.stacks| && StackRanked(rank, s.stacks[t])
    requires s.stacks[t] != [] && Top(s.stacks[t]).id < |s.classes|
    requires Sized(s') && s'.classes == s.classes && s'.onces == s.onces
    requires s'.stacks == s.stacks[t := WithTop(s.stacks[t], phase)]
    requires var was := Top(s.stacks[t]).phase;
      (was.Building? && phase.Registering?) || (was.Registering? && phase.Built?)
    ensures Lowers(s, s', rank, t)
  {
    SameBelow(s.classes, rank, s.stacks[t], phase);
  }

  lemma LeaveWorks(s: State, rank: seq<nat>, t: nat)
    requires OnceInv(s) && StackInv(s) && Ranks(s.classes, rank) && t < |s.stacks| && StackRanked(rank, s.stacks[t])
    requires s.stacks[t] != [] && Top(s.stacks[t]).id < |s.classes| && Top(s.stacks[t]).phase.Built?
    ensures Lowers(s, DoLeave(s, t), rank, t)
  {
    var i := Top(s.stacks[t]).id;
    FrameRuns(s, t, |s.stacks[t]| - 1);
    var v := OnceMoves(s, i, Once.Step(t));
    assert v.Storing?;
    LeftWork(s.classes, rank, s.stacks[t], Column(s.onces, t), v);
  }

  lemma LeftWork(classes: seq<Class>, rank: seq<nat>, stack: seq<Frame>, column: seq<Once.Pc>, v: Once.Pc)
    requires Ranks(classes, rank) && StackRanked(rank, stack) && |column| == |classes|
    requires stack != [] && Top(stack).phase.Built? && v.Storing?
    ensures StackRanked(rank, WithTop(stack, Entering))
    ensures StackWork(classes, rank, WithTop(stack, Entering), column[Top(stack).id := v])
          < StackWork(classes, rank, stack, column)
  {
    SameBelow(classes, rank, stack, Entering);
  }

  lemma ReturnedWork(classes: seq<Class>, rank: seq<nat>, stack: seq<Frame>, column: seq<Once.Pc>)
    requires Ranks(classes, rank) && StackRanked(rank, stack) && |column| == |classes| && stack != []
    requires |stack| > 1 ==> stack[|stack| - 2].phase.Building?
    requires Top(stack).phase.Entering? && column[Top(stack).id].Returned?
    ensures StackRanked(rank, AfterReturn(stack))
    ensures StackWork(classes, rank, AfterReturn(stack), column) < StackWork(classes, rank, stack, column)
  {
    var rest := stack[..|stack| - 1];
    DoneWork(classes, rank, stack, column);
    if rest == [] {
      assert AfterReturn(stack) == [];
    } else {
      CallerWork(classes, rank, rest, column);
      CallerIs(stack);
    }
  }

  lemma CallerIs(stack: seq<Frame>)
    requires |stack| > 1 && stack[|stack| - 2].phase.Building?
    ensures var rest := stack[..|stack| - 1];
      Top(rest).phase.Building? && AfterReturn(stack) == WithTop(rest, Building(Top(rest).phase.k + 1))
  {
  }

  lemma DoneWork(classes: seq<Class>, rank: seq<nat>, stack: seq<Frame>, column: seq<Once.Pc>)
    requires Ranks(classes, rank) && StackRanked(rank, stack) && |column| == |classes| && stack != []
    requires Top(stack).phase.Entering? && column[Top(stack).id].Returned?
    ensures StackWork(classes, rank, stack, column) == Below(classes, rank, stack[..|stack| - 1]) + 1
  {
  }

  /** A caller that goes on has the work that was counted below its call. */
  lemma CallerWork(classes: seq<Class>, rank: seq<nat>, rest: seq<Frame>, column: seq<Once.Pc>)
    requires Ranks(classes, rank) && StackRanked(rank, rest) && |column| == |classes|
    requires rest != [] && Top(rest).phase.Building?
    ensures var stack := WithTop(rest, Building(Top(rest).phase.k + 1));
      StackRanked(rank, stack) && StackWork(classes, rank, stack, column) == Below(classes, rank, rest)
  {
    SameBelow(classes, rank, rest, Building(Top(rest).phase.k + 1));
  }

  lemma ReturnWorks(s: State, rank: seq<nat>, t: nat)
    requires OnceInv(s) && StackInv(s) && Ranks(s.classes, rank) && t < |s.stacks| && StackRanked(rank, s.stacks[t])
    requires s.stacks[t] != [] && Top(s.stacks[t]).id < |s.classes| && Top(s.stacks[t]).phase.Entering?
    requires s.onces[Top(s.stacks[t]).id].pcs[t].Returned?
    ensures Lowers(s, DoReturn(s, t), rank, t)
  {
    assert ThreadOk(s.classes, s.stacks[t], Column(s.onces, t));
    PopOk(s.classes, s.stacks[t], Column(s.onces, t));
    ReturnedWork(s.classes, rank, s.stacks[t], Column(s.onces, t));
  }

  lemma BuildingWorks(s: State, rank: seq<nat>, t: nat)
    requires OnceInv(s) && StackInv(s) && Ranks(s.classes, rank) && t < |s.stacks| && StackRanked(rank, s.stacks[t])
    requires s.stacks[t] != [] && Top(s.stacks[t]).id < |s.classes| && Top(s.stacks[t]).phase.Building?
    ensures Lowers(s, StepThread(s, t), rank, t)
  {
    var Frame(i, phase) := Top(s.stacks[t]);
    var deps := s.classes[i].deps;
    if phase.k >= |deps| {
      PhaseWorks(s, DoConstruct(s, t), rank, t, Registering);
    } else if deps[phase.k] < |s.onces| && !OnStack(s.stacks[t], deps[phase.k]) {
      EnterWorks(s, rank, t);
    }
  }

  lemma BuilderWorks(s: State, rank: seq<nat>, t: nat)
    requires OnceInv(s) && StackInv(s) && Ranks(s.classes, rank) && t < |s.stacks| && StackRanked(rank, s.stacks[t])
    requires s.stacks[t] != [] && Top(s.stacks[t]).id < |s.classes| && !Top(s.stacks[t]).phase.Entering?
    ensures Lowers(s, StepThread(s, t), rank, t)
  {
    match Top(s.stacks[t]).phase
    case Building(k) => BuildingWorks(s, rank, t);
    case Registering => PhaseWorks(s, DoRegister(s, t), rank, t, Built);
    case Built => LeaveWorks(s, rank, t);
  }

  /** A step is futile or takes away some work. */
  lemma StepWorks(s: State, rank: seq<nat>, t: nat)
    requires Inv(s) && Ranks(s.classes, rank) && t < |s.stacks| && StackRanked(rank, s.stacks[t])
    ensures Lowers(s, Next(s, Step(t)), rank, t)
  {
    if s.stacks[t] != [] && Top(s.stacks[t]).id < |s.classes| {
      assert Next(s, Step(t)) == StepThread(s, t);
      if !Top(s.stacks[t]).phase.Entering? {
        BuilderWorks(s, rank, t);
      } else if s.onces[Top(s.stacks[t]).id].pcs[t].Returned? {
        ReturnWorks(s, rank, t);
      } else {
        RunWorks(s, rank, t);
      }
    }
  }

  // All threads together.

  ghost predicate AllRanked(s: State, rank: seq<nat>) {
    Ranks(s.classes, rank) && forall t :: 0 <= t < |s.stacks| ==> StackRanked(rank, s.stacks[t])
  }

  function Works(s: State, rank: seq<nat>): seq<nat>
    requires Sized(s) && AllRanked(s, rank)
  {
    seq(|s.stacks|, t requires 0 <= t < |s.stacks| => WorkOf(s, rank, t))
  }

  function Self(n: nat): nat { n }

  /** Work left in the whole process. */
  ghost function Work(s: State, rank: seq<nat>): nat {
    if Sized(s) && AllRanked(s, rank) then Total(Works(s, rank), Self) else 0
  }

  lemma OthersWork(s: State, rank: seq<nat>, t: nat)
    requires Inv(s) && AllRanked(s, rank) && t < |s.stacks| && Lowers(s, Next(s, Step(t)), rank, t)
    ensures var s' := Next(s, Step(t));
      AllRanked(s', rank) && Works(s', rank) == Works(s, rank)[t := WorkOf(s', rank, t)]
  {
    var s' := Next(s, Step(t));
    forall u | 0 <= u < |s.stacks| && u != t
      ensures s'.stacks[u] == s.stacks[u] && Column(s'.onces, u) == Column(s.onces, u)
    {
      OthersStand(s, t, u);
    }
    OneWorks(s, s', rank, t);
  }

  lemma OneWorks(s: State, s': State, rank: seq<nat>, t: nat)
    requires Sized(s) && AllRanked(s, rank) && t < |s.stacks| && Lowers(s, s', rank, t)
    requires forall u :: 0 <= u < |s.stacks| && u != t ==>
      s'.stacks[u] == s.stacks[u] && Column(s'.onces, u) == Column(s.onces, u)
    ensures AllRanked(s', rank) && Works(s', rank) == Works(s, rank)[t := WorkOf(s', rank, t)]
  {
  }

  lemma StepWorksForAll(s: State, rank: seq<nat>, t: nat)
    requires Inv(s) && AllRanked(s, rank)
    ensures AllRanked(Next(s, Step(t)), rank)
    ensures Next(s, Step(t)) == s || Work(Next(s, Step(t)), rank) < Work(s, rank)
  {
    if t < |s.stacks| {
      StepWorks(s, rank, t);
      OthersWork(s, rank, t);
      TotalUpdate(Works(s, rank), t, WorkOf(Next(s, Step(t)), rank, t), Self);
    }
  }

  /** Each thread named in the order makes one step, in that order. */
  function Steps(s: State, order: seq<nat>): State
    decreases |order|
  {
    if order == [] then s else Steps(Next(s, Step(order[0])), order[1..])
  }

  ghost predicate Ready(s: State, rank: seq<nat>) {
    Inv(s) && AllRanked(s, rank)
  }

  lemma StepKeepsReady(s: State, rank: seq<nat>, t: nat)
    requires Ready(s, rank)
    ensures Ready(Next(s, Step(t)), rank) && |Next(s, Step(t)).stacks| == |s.stacks|
    ensures Next(s, Step(t)) == s || Work(Next(s, Step(t)), rank) < Work(s, rank)
  {
    NextKeepsInv(s, Step(t));
    NextKeepsFrame(s, Step(t));
    StepWorksForAll(s, rank, t);
  }

  lemma {:induction false} StepsWork(s: State, rank: seq<nat>, order: seq<nat>)
    requires Ready(s, rank)
    ensures Ready(Steps(s, order), rank) && Work(Steps(s, order), rank) <= Work(s, rank)
    ensures |Steps(s, order).stacks| == |s.stacks|
    decreases |order|
  {
    if order != [] {
      StepKeepsReady(s, rank, order[0]);
      StepsWork(Next(s, Step(order[0])), rank, order[1..]);
    }
  }

  lemma FirstHelps(s: State, rank: seq<nat>, order: seq<nat>)
    requires Ready(s, rank) && order != [] && Next(s, Step(order[0])) != s
    ensures Work(Steps(s, order), rank) < Work(s, rank)
  {
    StepKeepsReady(s, rank, order[0]);
    StepsWork(Next(s, Step(order[0])), rank, order[1..]);
  }

  lemma FutileFirst(s: State, order: seq<nat>)
    requires order != [] && Next(s, Step(order[0])) == s
    ensures Steps(s, order) == Steps(s, order[1..])
  {
  }

  /** Futile steps can be left out up to the first that helps. */
  lemma {:induction false} SkipFutile(s: State, order: seq<nat>, k: nat) returns (rest: seq<nat>)
    requires k < |order| && Next(s, Step(order[k])) != s
    ensures rest != [] && Next(s, Step(rest[0])) != s && Steps(s, order) == Steps(s, rest)
    decreases |order|
  {
    if Next(s, Step(order[0])) == s {
      FutileFirst(s, order);
      assert order[1..][k - 1] == order[k];
      rest := SkipFutile(s, order[1..], k - 1);
    } else {
      rest := order;
    }
  }

  /** A step that helps now still helps when it comes, or something else has helped before. */
  lemma HelpComes(s: State, rank: seq<nat>, order: seq<nat>, k: nat)
    requires Ready(s, rank) && k < |order| && Next(s, Step(order[k])) != s
    ensures Work(Steps(s, order), rank) < Work(s, rank)
  {
    var rest := SkipFutile(s, order, k);
    FirstHelps(s, rank, rest);
  }

  function Rounds(s: State, orders: seq<seq<nat>>): State
    decreases |orders|
  {
    if orders == [] then s else Rounds(Steps(s, orders[0]), orders[1..])
  }

  predicate Quiet(s: State) {
    forall t :: 0 <= t < |s.stacks| ==> s.stacks[t] == []
  }

  lemma {:induction false} StepsKeepForms(s: State, form: Form, order: seq<nat>)
    requires Inv(s) && AllForms(s, form)
    ensures AllForms(Steps(s, order), form)
    decreases |order|
  {
    if order != [] {
      NextKeepsInv(s, Step(order[0]));
      NextKeepsForms(s, Step(order[0]), form);
      StepsKeepForms(Next(s, Step(order[0])), form, order[1..]);
    }
  }

  /** A round in which every thread steps at least once takes away some work, while any is left. */
  lemma RoundWorks(s: State, rank: seq<nat>, form: Form, order: seq<nat>)
    requires Ready(s, rank) && Acyclic(s.classes, rank) && AllForms(s, form) && Once.Sound(form, |s.stacks|)
    requires Once.Covers(order, |s.stacks|) && !Quiet(s)
    ensures Work(Steps(s, order), rank) < Work(s, rank)
  {
    var t: nat :| t < |s.stacks| && s.stacks[t] != [];
    var w := SomeoneMoves(s, rank, form, t);
    assert w in order;
    var k: nat :| k < |order| && order[k] == w;
    HelpComes(s, rank, order, k);
  }

  lemma {:induction false} QuietStays(s: State, order: seq<nat>)
    requires Quiet(s)
    ensures Quiet(Steps(s, order))
    decreases |order|
  {
    if order != [] {
      QuietStays(Next(s, Step(order[0])), order[1..]);
    }
  }

  lemma {:induction false} RoundsQuiet(s: State, rank: seq<nat>, form: Form, orders: seq<seq<nat>>)
    requires Ready(s, rank) && Acyclic(s.classes, rank) && AllForms(s, form) && Once.Sound(form, |s.stacks|)
    requires forall order :: order in orders ==> Once.Covers(order, |s.stacks|)
    requires Quiet(s) || |orders| >= Work(s, rank)
    ensures Quiet(Rounds(s, orders))
    decreases |orders|
  {
    if orders != [] {
      var s' := Steps(s, orders[0]);
      StepsWork(s, rank, orders[0]);
      StepsKeepForms(s, form, orders[0]);
      StepsKeepClasses(s, orders[0]);
      if Quiet(s) {
        QuietStays(s, orders[0]);
      } else {
        RoundWorks(s, rank, form, orders[0]);
      }
      RoundsQuiet(s', rank, form, orders[1..]);
    } else if !Quiet(s) {
      BusyHasWork(s, rank);
    }
  }

  lemma {:induction false} StepsKeepClasses(s: State, order: seq<nat>)
    requires Inv(s)
    ensures Steps(s, order).classes == s.classes
    decreases |order|
  {
    if order != [] {
      NextKeepsInv(s, Step(order[0]));
      NextKeepsFrame(s, Step(order[0]));
      StepsKeepClasses(Next(s, Step(order[0])), order[1..]);
    }
  }

  lemma BusyHasWork(s: State, rank: seq<nat>)
    requires Ready(s, rank) && !Quiet(s)
    ensures Work(s, rank) > 0
  {
    var t: nat :| t < |s.stacks| && s.stacks[t] != [];
    assert ThreadOk(s.classes, s.stacks[t], Column(s.onces, t));
    assert FrameFits(Column(s.onces, t)[Top(s.stacks[t]).id], s.stacks[t][|s.stacks[t]| - 1].phase);
    assert Works(s, rank)[t] > 0;
    TotalAtLeast(Works(s, rank), t, Self);
  }

  lemma AcyclicIsReady(s: State, rank: seq<nat>)
    requires Inv(s) && Acyclic(s.classes, rank)
    ensures Ready(s, rank)
  {
    forall t | 0 <= t < |s.stacks| ensures StackRanked(rank, s.stacks[t]) {
      assert ThreadOk(s.classes, s.stacks[t], Column(s.onces, t));
    }
  }

  /**
   * Progress: if classes do not need each other in a circle and the increase is sound, then
   * after any run at all every instance() call returns, within as many rounds as there is work
   * left, each round being any order in which every thread steps at least once.
   */
  lemma AllInstancesReturn(form: Form, n: nat, classes: seq<Class>, rank: seq<nat>, schedule: seq<Action>,
                           orders: seq<seq<nat>>)
    requires ValidClasses(classes) && Acyclic(classes, rank) && Once.Sound(form, n)
    requires forall order :: order in orders ==> Once.Covers(order, n)
    requires |orders| >= Work(Run(Init(form, n, classes), schedule), rank)
    ensures Quiet(Rounds(Run(Init(form, n, classes), schedule), orders))
  {
    InitHasInv(form, n, classes);
    RunKeepsInv(Init(form, n, classes), schedule);
    RunKeepsForms(Init(form, n, classes), schedule, form);
    AcyclicIsReady(Run(Init(form, n, classes), schedule), rank);
    RoundsQuiet(Run(Init(form, n, classes), schedule), rank, form, orders);
  }
}
