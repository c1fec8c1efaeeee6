/**
 * Runs that a scheduler can always bring about: one thread at a time steps, until the instance
 * it asked for has been constructed, or until it is about to register it.
 */
module SingletonRuns {
  import opened Sequences
  import opened Singletons
  import opened SingletonProgress
  import opened Sums
  import Once = ThreadOnce

  /** Following the constructors from x one never comes back to a class one came through. */
  ghost predicate Buildable(classes: seq<Class>, x: nat) {
    exists rank: seq<nat> :: Ranks(classes, rank) && x < |rank| && rank[x] > 0
  }

  lemma NeedsThrough(classes: seq<Class>, x: nat, d: nat, y: nat)
    requires x < |classes| && d in classes[x].deps && !Needs(classes, x, y)
    ensures d != y && !Needs(classes, d, y)
  {
    assert !NeedsIn(classes, x, y, 1);
    forall k: nat ensures !NeedsIn(classes, d, y, k) {
      assert !NeedsIn(classes, x, y, k + 1);
    }
  }

  /** Nobody needs what is not a class. */
  lemma {:induction false} NoClassNeeds(classes: seq<Class>, x: nat, k: nat)
    requires ValidClasses(classes)
    ensures !NeedsIn(classes, x, |classes|, k)
    decreases k
  {
    if NeedsIn(classes, x, |classes|, k) {
      var d :| d in classes[x].deps && (d == |classes| || NeedsIn(classes, d, |classes|, k - 1));
      assert classes[x] in classes;
      NoClassNeeds(classes, d, k - 1);
    }
  }

  /** Two rankings make one of all that either ranks. */
  lemma MergedRanks(classes: seq<Class>, a: seq<nat>, b: seq<nat>) returns (rank: seq<nat>)
    requires Ranks(classes, a) && Ranks(classes, b)
    ensures Ranks(classes, rank) && forall i :: 0 <= i < |rank| ==> (rank[i] > 0 <==> a[i] > 0 || b[i] > 0)
  {
    rank := seq(|classes|, i requires 0 <= i < |classes| => Lower(a[i], b[i]));
    forall i | 0 <= i < |classes| && rank[i] > 0
      ensures forall d :: d in classes[i].deps ==> d < |rank| && 0 < rank[d] < rank[i]
    {
      forall d | d in classes[i].deps ensures d < |rank| && 0 < rank[d] < rank[i] {
        if rank[i] == a[i] {
          assert 0 < a[d] < a[i];
        } else {
          assert 0 < b[d] < b[i];
        }
      }
    }
  }

  /** Two classes that can be built can be ranked together. */
  lemma BothRanked(classes: seq<Class>, x: nat, y: nat) returns (rank: seq<nat>)
    requires Buildable(classes, x) && Buildable(classes, y)
    ensures Ranks(classes, rank) && x < |rank| && y < |rank| && rank[x] > 0 && rank[y] > 0
  {
    var a: seq<nat> :| Ranks(classes, a) && x < |a| && a[x] > 0;
    var b: seq<nat> :| Ranks(classes, b) && y < |b| && b[y] > 0;
    rank := MergedRanks(classes, a, b);
  }

  /** The smaller of two ranks that are above 0. */
  function Lower(a: nat, b: nat): nat {
    if a == 0 then b else if b == 0 || a <= b then a else b
  }

  // Completed constructions.

  /** completed lists what has been constructed, after all that it needed. */
  ghost predicate CompletedInv(s: State) {
    && Sized(s) && Distinct(s.completed) && DepsFirst(s.classes, s.completed)
    && (forall i :: 0 <= i < |s.constructed| ==> (i in s.completed <==> s.constructed[i] >= 1))
  }

  lemma ConstructKeepsCompleted(s: State, t: nat)
    requires CompletedInv(s) && BuildInv(s) && t < |s.stacks| && s.stacks[t] != []
    requires Top(s.stacks[t]).id < |s.classes| && Top(s.stacks[t]).phase.Building?
    requires Top(s.stacks[t]).phase.k >= |s.classes[Top(s.stacks[t]).id].deps|
    ensures CompletedInv(DoConstruct(s, t))
  {
    var i, s' := Top(s.stacks[t]).id, DoConstruct(s, t);
    assert FrameTells(s, s.stacks[t][|s.stacks[t]| - 1]);
    forall d | d in s.classes[i].deps ensures d in s.completed {
      var m :| 0 <= m < |s.classes[i].deps| && s.classes[i].deps[m] == d;
      assert s.classes[i].deps[m] in s.regs;
      assert s.classes[i] in s.classes;
      assert ClassTells(s, d);
    }
    forall a | 0 <= a < |s'.completed|
      ensures s'.completed[a] < |s.classes| && AllDeps(s.classes, s'.completed[..a], s'.completed[a])
    {
      assert s'.completed[..a] == s.completed[..a];
      if a == |s.completed| {
        assert s.completed[..a] == s.completed;
      }
    }
  }

  lemma NextKeepsCompleted(s: State, a: Action)
    requires CompletedInv(s) && BuildInv(s)
    ensures CompletedInv(Next(s, a))
  {
    if a.Step? && a.t < |s.stacks| && s.stacks[a.t] != [] && Top(s.stacks[a.t]).id < |s.classes| {
      var Frame(i, phase) := Top(s.stacks[a.t]);
      if phase.Building? && phase.k >= |s.classes[i].deps| {
        ConstructKeepsCompleted(s, a.t);
      }
    }
  }

  // One thread at a time.

  /** In run() of one class, one thread moves while all others are out of it, and nobody has ever lost. */
  ghost predicate AloneInOnce(once: Once.State, t: nat) {
    && Once.Inv(once) && t < |once.pcs| && once.losses == 0
    && (forall u :: 0 <= u < |once.pcs| && u != t ==> AtRest(once.pcs[u]))
    && (once.pcs[t].Adding? || once.pcs[t].Reading? ==> !once.done)
  }

  lemma AloneCounts(once: Once.State, t: nat)
    requires AloneInOnce(once, t) && !once.done
    ensures once.pcs[t].Adding? ==> once.started == -1
    ensures once.pcs[t].Reading? ==> once.started == 0
  {
    var pcs := once.pcs[t := Once.Idle];
    TotalUpdate(once.pcs, t, Once.Idle, Once.ReadingWeight);
    TotalUpdate(once.pcs, t, Once.Idle, Once.WindowWeight);
    TotalZero(pcs, Once.ReadingWeight);
    TotalZero(pcs, Once.WindowWeight);
  }

  /** Alone, it never loses. */
  lemma AloneWins(once: Once.State, t: nat)
    requires AloneInOnce(once, t)
    ensures AloneInOnce(Once.Next(once, Once.Step(t)), t)
    ensures !once.pcs[t].Spinning?
  {
    Once.NextKeepsInv(once, Once.Step(t));
    var v := Once.NextMovesOne(once, Once.Step(t));
    if !once.done { AloneCounts(once, t); }
  }

  /** A frame of class z or of a class that needs z. */
  ghost predicate Touches(classes: seq<Class>, id: nat, z: nat) {
    id == z || Needs(classes, id, z)
  }

  /** Thread t runs alone and keeps clear of class z, which others may hold; nobody has ever spun. */
  ghost predicate Clear(s: State, t: nat, rank: seq<nat>, z: nat) {
    && Ranks(s.classes, rank) && t < |s.stacks|
    && (forall i :: 0 <= i < |s.onces| ==> s.onces[i].losses == 0)
    && StackRanked(rank, s.stacks[t])
    && (forall k :: 0 <= k < |s.stacks[t]| ==> !Touches(s.classes, s.stacks[t][k].id, z))
    && (forall u, k :: 0 <= u < |s.stacks| && u != t && 0 <= k < |s.stacks[u]| ==> s.stacks[u][k].id == z)
    && (s.stacks[t] != [] ==> Hopeful(s, t, Top(s.stacks[t]).id))
  }

  ghost predicate Solo(s: State, t: nat, rank: seq<nat>, z: nat) {
    Inv(s) && CompletedInv(s) && Clear(s, t, rank, z)
  }

  /** It has not passed the first test of done in vain. */
  predicate Hopeful(s: State, t: nat, i: nat) {
    i < |s.onces| && t < |s.onces[i].pcs|
    && (s.onces[i].pcs[t].Adding? || s.onces[i].pcs[t].Reading? ==> !s.onces[i].done)
  }

  /** What such steps leave alone. */
  ghost predicate Since(s: State, s': State, t: nat, z: nat) {
    && s'.classes == s.classes && |s'.stacks| == |s.stacks|
    && (forall u :: 0 <= u < |s.stacks| && u != t ==> s'.stacks[u] == s.stacks[u])
    && s.completed <= s'.completed && s.regs <= s'.regs
    && (z in s'.completed ==> z in s.completed) && (z in s'.regs ==> z in s.regs)
  }

  lemma AloneOnStack(s: State, t: nat, rank: seq<nat>, z: nat)
    requires Solo(s, t, rank, z) && s.stacks[t] != []
    ensures Top(s.stacks[t]).id < |s.onces| && AloneInOnce(s.onces[Top(s.stacks[t]).id], t)
  {
    assert ThreadOk(s.classes, s.stacks[t], Column(s.onces, t));
    var i := Top(s.stacks[t]).id;
    forall u | 0 <= u < |s.stacks| && u != t ensures AtRest(s.onces[i].pcs[u]) {
      assert ThreadOk(s.classes, s.stacks[u], Column(s.onces, u));
      assert AtRest(Column(s.onces, u)[i]);
    }
  }

  /** A thread alone can always go on. */
  lemma SoloMoves(s: State, t: nat, rank: seq<nat>, z: nat)
    requires Solo(s, t, rank, z) && s.stacks[t] != []
    ensures Next(s, Step(t)) != s
  {
    AloneOnStack(s, t, rank, z);
    if Top(s.stacks[t]).phase.Entering? {
      AloneWins(s.onces[Top(s.stacks[t]).id], t);
      RunnerMoves(s, t);
    } else {
      BuilderMoves(s, rank, t);
    }
  }

  lemma NoLosses(s: State, t: nat, rank: seq<nat>, z: nat)
    requires Solo(s, t, rank, z) && s.stacks[t] != []
    ensures forall i :: 0 <= i < |s.onces| ==> i < |Next(s, Step(t)).onces| && Next(s, Step(t)).onces[i].losses == 0
  {
    AloneOnStack(s, t, rank, z);
    AloneWins(s.onces[Top(s.stacks[t]).id], t);
    var i, a := OncesAfter(s, t);
    assert Next(s, Step(t)) == StepThread(s, t);
    assert Once.Next(s.onces[i], a).losses == 0;
  }

  /** The stack after a step: same bottom, and at most the class needed next is new. */
  lemma StackAfter(s: State, t: nat)
    requires Sized(s) && t < |s.stacks| && s.stacks[t] != [] && Top(s.stacks[t]).id < |s.classes|
    ensures var stack, stack' := s.stacks[t], Next(s, Step(t)).stacks[t];
      && |Next(s, Step(t)).stacks| == |s.stacks|
      && |stack| - 1 <= |stack'| <= |stack| + 1
      && (forall k :: 0 <= k < |stack'| && k < |stack| ==> stack'[k].id == stack[k].id)
      && (|stack'| > |stack| ==> Wants(s.classes, Top(stack), Top(stack').id) && Top(stack').phase.Entering?)
      && (|stack'| < |stack| ==> s.onces[Top(stack).id].pcs[t].Returned?)
  {
    var stack' := StacksAfter(s, t);
    assert Next(s, Step(t)) == StepThread(s, t);
  }

  lemma SoloFrames(s: State, t: nat, rank: seq<nat>, z: nat)
    requires Solo(s, t, rank, z) && s.stacks[t] != []
    ensures var s' := Next(s, Step(t));
      |s'.stacks| == |s.stacks| && forall k :: 0 <= k < |s'.stacks[t]| ==> !Touches(s.classes, s'.stacks[t][k].id, z)
  {
    StackAfter(s, t);
    var stack, stack' := s.stacks[t], Next(s, Step(t)).stacks[t];
    assert !Touches(s.classes, stack[|stack| - 1].id, z);
    if |stack'| > |stack| {
      var i, d := Top(stack).id, Top(stack').id;
      assert d in s.classes[i].deps;
      NeedsThrough(s.classes, i, d, z);
    }
  }

  lemma ListsAfter(s: State, t: nat)
    requires Sized(s) && t < |s.stacks| && s.stacks[t] != [] && Top(s.stacks[t]).id < |s.classes|
    ensures var s', i := StepThread(s, t), Top(s.stacks[t]).id;
      && (s'.completed == s.completed || s'.completed == s.completed + [i])
      && (s'.regs == s.regs || (s'.regs == s.regs + [i] && Top(s.stacks[t]).phase.Registering?))
  {
  }

  lemma SoloSince(s: State, t: nat, rank: seq<nat>, z: nat)
    requires Solo(s, t, rank, z) && s.stacks[t] != []
    ensures Since(s, Next(s, Step(t)), t, z)
  {
    NextKeepsFrame(s, Step(t));
    ListsAfter(s, t);
    assert !Touches(s.classes, s.stacks[t][|s.stacks[t]| - 1].id, z);
    forall u | 0 <= u < |s.stacks| && u != t ensures Next(s, Step(t)).stacks[u] == s.stacks[u] {
      OthersStand(s, t, u);
    }
  }

  lemma RunIsHopeful(s: State, t: nat, rank: seq<nat>, z: nat)
    requires Solo(s, t, rank, z) && s.stacks[t] != [] && Top(s.stacks[t]).phase.Entering?
    requires Top(s.stacks[t]).id < |s.onces| && !s.onces[Top(s.stacks[t]).id].pcs[t].Returned?
    ensures Hopeful(DoRun(s, t), t, Top(s.stacks[t]).id)
    ensures |DoRun(s, t).stacks| == |s.stacks| && DoRun(s, t).stacks[t] != []
    ensures Top(DoRun(s, t).stacks[t]).id == Top(s.stacks[t]).id
  {
    AloneOnStack(s, t, rank, z);
    AloneWins(s.onces[Top(s.stacks[t]).id], t);
  }

  /** A caller that goes on is in its routine, not between adding and reading. */
  lemma ReturnIsHopeful(s: State, t: nat)
    requires OnceInv(s) && StackInv(s) && t < |s.stacks| && s.stacks[t] != [] && Top(s.stacks[t]).id < |s.classes|
    requires s.onces[Top(s.stacks[t]).id].pcs[t].Returned?
    ensures var s' := DoReturn(s, t); s'.stacks[t] != [] ==> Hopeful(s', t, Top(s'.stacks[t]).id)
  {
    var stack, column := s.stacks[t], Column(s.onces, t);
    assert ThreadOk(s.classes, stack, column);
    PopOk(s.classes, stack, column);
    ReturnOk(s.classes, stack, column);
    if AfterReturn(stack) != [] {
      CallerGoesOn(s.classes, stack, |stack| - 2);
      FrameRuns(s, t, |stack| - 2);
    }
  }

  /** Nor is a thread that has just come to run(). */
  lemma CalleeIsHopeful(s: State, t: nat, d: nat)
    requires OnceInv(s) && StackInv(s) && t < |s.stacks| && d < |s.onces| && !OnStack(s.stacks[t], d)
    ensures var s' := DoEnter(s, t, d);
      |s'.stacks| == |s.stacks| && s'.stacks[t] != [] && Hopeful(s', t, Top(s'.stacks[t]).id)
  {
    assert ThreadOk(s.classes, s.stacks[t], Column(s.onces, t));
    assert AtRest(Column(s.onces, t)[d]);
  }

  /** Nor is a thread in the routine. */
  lemma BuilderIsHopeful(s: State, t: nat)
    requires OnceInv(s) && StackInv(s) && t < |s.stacks| && s.stacks[t] != [] && Top(s.stacks[t]).id < |s.classes|
    requires !Top(s.stacks[t]).phase.Entering?
    ensures var s' := StepThread(s, t);
      |s'.stacks| == |s.stacks| && (s'.stacks[t] != [] ==> Hopeful(s', t, Top(s'.stacks[t]).id))
  {
    var stack := s.stacks[t];
    FrameRuns(s, t, |stack| - 1);
    if Top(stack).phase.Building? && Top(stack).phase.k < |s.classes[Top(stack).id].deps| {
      var d := s.classes[Top(stack).id].deps[Top(stack).phase.k];
      if d < |s.onces| && !OnStack(stack, d) {
        CalleeIsHopeful(s, t, d);
      }
    }
  }

  /** The place of the innermost call after a step. */
  lemma SoloHopeful(s: State, t: nat, rank: seq<nat>, z: nat)
    requires Solo(s, t, rank, z) && s.stacks[t] != [] && Inv(Next(s, Step(t)))
    requires |Next(s, Step(t)).stacks| == |s.stacks|
    ensures var s' := Next(s, Step(t)); s'.stacks[t] != [] ==> Hopeful(s', t, Top(s'.stacks[t]).id)
  {
    var i := Top(s.stacks[t]).id;
    AloneOnStack(s, t, rank, z);
    if !Top(s.stacks[t]).phase.Entering? {
      BuilderIsHopeful(s, t);
    } else if s.onces[i].pcs[t].Returned? {
      ReturnIsHopeful(s, t);
    } else {
      RunIsHopeful(s, t, rank, z);
    }
  }

  lemma SoloStays(s: State, t: nat, rank: seq<nat>, z: nat)
    requires Solo(s, t, rank, z) && s.stacks[t] != []
    ensures Solo(Next(s, Step(t)), t, rank, z)
  {
    NextKeepsInv(s, Step(t));
    NextKeepsFrame(s, Step(t));
    NextKeepsCompleted(s, Step(t));
    NoLosses(s, t, rank, z);
    StepWorks(s, rank, t);
    SoloFrames(s, t, rank, z);
    SoloSince(s, t, rank, z);
    SoloHopeful(s, t, rank, z);
  }

  lemma RunSnoc(s: State, schedule: seq<Action>, a: Action)
    ensures Run(s, schedule + [a]) == Next(Run(s, schedule), a)
  {
    assert (schedule + [a])[..|schedule|] == schedule;
  }

  /** One step alone: less work, or the outermost call has returned and its class is registered. */
  lemma SoloStep(s: State, t: nat, rank: seq<nat>, z: nat)
    requires Solo(s, t, rank, z) && s.stacks[t] != []
    ensures var s' := Next(s, Step(t));
      && Solo(s', t, rank, z) && Since(s, s', t, z)
      && WorkOf(s', rank, t) < WorkOf(s, rank, t)
      && (s'.stacks[t] == [] ==> s.stacks[t][0].id in s'.regs)
      && (s'.stacks[t] != [] ==> s'.stacks[t][0].id == s.stacks[t][0].id)
  {
    SoloStays(s, t, rank, z);
    SoloSince(s, t, rank, z);
    SoloMoves(s, t, rank, z);
    StepWorks(s, rank, t);
    BottomAfter(s, t);
  }

  lemma BottomAfter(s: State, t: nat)
    requires Inv(s) && t < |s.stacks| && s.stacks[t] != []
    ensures var s' := Next(s, Step(t));
      && |s'.stacks| == |s.stacks|
      && (s'.stacks[t] == [] ==> s.stacks[t][0].id in s.regs)
      && (s'.stacks[t] != [] ==> s'.stacks[t][0].id == s.stacks[t][0].id)
  {
    assert ThreadOk(s.classes, s.stacks[t], Column(s.onces, t));
    StackAfter(s, t);
    if Next(s, Step(t)).stacks[t] == [] {
      ReturnedIsRegistered(s, t, Top(s.stacks[t]).id);
    }
  }

  lemma SinceTransitive(s: State, m: State, s': State, t: nat, z: nat)
    requires Since(s, m, t, z) && Since(m, s', t, z)
    ensures Since(s, s', t, z)
  {
  }

  /** The thread steps until its outermost call has returned; then that class is registered. */
  lemma SoloReturns(s0: State, before: seq<Action>, t: nat, rank: seq<nat>, z: nat) returns (after: seq<Action>)
    requires Solo(Run(s0, before), t, rank, z) && Run(s0, before).stacks[t] != []
    ensures Solo(Run(s0, after), t, rank, z) && Since(Run(s0, before), Run(s0, after), t, z)
    ensures Run(s0, after).stacks[t] == [] && Run(s0, before).stacks[t][0].id in Run(s0, after).regs
    decreases WorkOf(Run(s0, before), rank, t)
  {
    var s := Run(s0, before);
    after := before + [Step(t)];
    RunSnoc(s0, before, Step(t));
    SoloStep(s, t, rank, z);
    if Run(s0, after).stacks[t] != [] {
      var m := Run(s0, after);
      after := SoloReturns(s0, after, t, rank, z);
      SinceTransitive(s, m, Run(s0, after), t, z);
    }
  }

  /** The thread steps until its outermost call is about to register a class that was not registered. */
  lemma SoloHolds(s0: State, before: seq<Action>, t: nat, rank: seq<nat>, z: nat) returns (after: seq<Action>)
    requires Solo(Run(s0, before), t, rank, z) && Run(s0, before).stacks[t] != []
    requires Run(s0, before).stacks[t][0].id !in Run(s0, before).regs
    ensures Solo(Run(s0, after), t, rank, z) && Since(Run(s0, before), Run(s0, after), t, z)
    ensures Run(s0, after).stacks[t] == [Frame(Run(s0, before).stacks[t][0].id, Registering)]
    decreases WorkOf(Run(s0, before), rank, t)
  {
    var s := Run(s0, before);
    var x := s.stacks[t][0].id;
    if s.stacks[t] == [Frame(x, Registering)] {
      after := before;
    } else {
      after := before + [Step(t)];
      RunSnoc(s0, before, Step(t));
      SoloStep(s, t, rank, z);
      NotYetRegistered(s, t);
      var m := Run(s0, after);
      after := SoloHolds(s0, after, t, rank, z);
      SinceTransitive(s, m, Run(s0, after), t, z);
    }
  }

  lemma NotYetRegistered(s: State, t: nat)
    requires Inv(s) && t < |s.stacks| && s.stacks[t] != [] && s.stacks[t][0].id !in s.regs
    requires s.stacks[t] != [Frame(s.stacks[t][0].id, Registering)]
    ensures var s' := Next(s, Step(t));
      && |s'.stacks| == |s.stacks| && s'.stacks[t] != [] && s'.stacks[t][0].id == s.stacks[t][0].id
      && s.stacks[t][0].id !in s'.regs
  {
    StackAfter(s, t);
    ListsAfter(s, t);
    assert ThreadOk(s.classes, s.stacks[t], Column(s.onces, t));
    var x := s.stacks[t][0].id;
    if |s.stacks[t]| == 1 && s.onces[x].pcs[t].Returned? {
      ReturnedIsRegistered(s, t, x);
    }
  }

  /** An idle thread calls instance(). */
  lemma SoloEnters(s0: State, before: seq<Action>, t: nat, rank: seq<nat>, z: nat, x: nat)
    requires Solo(Run(s0, before), t, rank, z) && Run(s0, before).stacks[t] == []
    requires x < |rank| && rank[x] > 0 && !Touches(Run(s0, before).classes, x, z)
    ensures var s, s' := Run(s0, before), Run(s0, before + [Enter(t, x)]);
      Solo(s', t, rank, z) && Since(s, s', t, z) && s'.stacks[t] == [Frame(x, Entering)] && s'.regs == s.regs
  {
    RunSnoc(s0, before, Enter(t, x));
    SoloCalls(Run(s0, before), t, rank, z, x);
  }

  lemma SoloCalls(s: State, t: nat, rank: seq<nat>, z: nat, x: nat)
    requires Solo(s, t, rank, z) && s.stacks[t] == []
    requires x < |rank| && rank[x] > 0 && !Touches(s.classes, x, z)
    ensures var s' := Next(s, Enter(t, x));
      Solo(s', t, rank, z) && Since(s, s', t, z) && s'.stacks[t] == [Frame(x, Entering)] && s'.regs == s.regs
  {
    NextKeepsInv(s, Enter(t, x));
    NextKeepsCompleted(s, Enter(t, x));
    NextIsEnter(s, t, x);
    EnteredStack(s, t, x);
    ClearCalls(s, t, rank, z, x);
  }

  lemma NextIsEnter(s: State, t: nat, x: nat)
    requires Sized(s) && t < |s.stacks| && s.stacks[t] == [] && x < |s.onces|
    ensures Next(s, Enter(t, x)) == DoEnter(s, t, x) && DoEnter(s, t, x).regs == s.regs
  {
  }

  lemma ClearCalls(s: State, t: nat, rank: seq<nat>, z: nat, x: nat)
    requires Clear(s, t, rank, z) && s.stacks[t] == []
    requires x < |rank| && x < |s.onces| && rank[x] > 0 && !Touches(s.classes, x, z)
    requires var s' := DoEnter(s, t, x);
      && s'.stacks == s.stacks[t := [Frame(x, Entering)]]
      && |s'.onces[x].pcs| == |s.stacks| && s'.onces[x].pcs[t].Entering? && s'.onces[x].losses == s.onces[x].losses
    ensures Clear(DoEnter(s, t, x), t, rank, z) && Since(s, DoEnter(s, t, x), t, z)
  {
  }

  lemma EnteredStack(s: State, t: nat, x: nat)
    requires OnceInv(s) && StackInv(s) && t < |s.stacks| && s.stacks[t] == [] && x < |s.onces|
    ensures var s' := DoEnter(s, t, x);
      && s'.stacks == s.stacks[t := [Frame(x, Entering)]]
      && |s'.onces[x].pcs| == |s.stacks| && s'.onces[x].pcs[t].Entering?
      && s'.onces[x].losses == s.onces[x].losses
  {
    assert ThreadOk(s.classes, [], Column(s.onces, t));
    assert AtRest(Column(s.onces, t)[x]);
    assert [] + [Frame(x, Entering)] == [Frame(x, Entering)];
  }
}
