/**
 * Progress of a joinable thread: once nobody asks for anything new, the owner gets to the end.
 */
module ThreadProgress {
  import opened JoinableThreads
  import opened Sums
  import opened Wrappers

  /** A party's turn to go on with what it is doing, or a spurious wakeup.  fails and absorbs are as in Action. */
  datatype Turn =
    | OwnerTurn(fails: bool)
    | ChildTurn(throws: bool, absorbs: bool)
    | CancellerTurn(i: nat)
    | WakeTurn

  /**
   * What a turn does in closing time: the owner wishes to destroy the object, the thread
   * function ends when it next acts, and no thread calls cancel() anew.
   */
  function TurnAction(s: State, turn: Turn): Option<Action> {
    match turn
    case OwnerTurn(fails) => Some(OwnerStep(ToDestroy, fails))
    case ChildTurn(throws, absorbs) => Some(ChildStep(if throws then Throw else Finish, absorbs))
    case CancellerTurn(i) => if i < |s.cancellers| && s.cancellers[i].Away? then None else Some(CancellerStep(i))
    case WakeTurn => Some(SpuriousWakeup)
  }

  function Take(s: State, turn: Turn): State {
    match TurnAction(s, turn)
    case None => s
    case Some(a) => Next(s, a)
  }

  function Turns(s: State, turns: seq<Turn>): State
    decreases |turns|
  {
    if turns == [] then s else Turns(Take(s, turns[0]), turns[1..])
  }

  /** Steps the owner has yet to make; a signal that wakes it adds two. */
  function OwnerRank(pc: OwnerPc): nat {
    match pc
    case Creating => 10
    case SpawnLocking => 9
    case SpawnWoken => 9
    case SpawnTesting => 8
    case SpawnBlocked => 7
    case SpawnUnlocking => 7
    case CancelLocking => 9
    case CancelStoring => 8
    case CancelUnlocking => 7
    case Usable => 6
    case JoinLocking(last) => if last then 5 else 9
    case JoinWoken(last) => if last then 5 else 9
    case JoinTesting(last) => if last then 4 else 8
    case JoinBlocked(last) => if last then 3 else 7
    case JoinUnlocking(last) => if last then 3 else 7
    case Reaping => 2
    case Deleting => 1
    case Gone => 0
  }

  /** Steps the child has yet to make, a signal counting for four. */
  function ChildRank(pc: ChildPc): nat {
    match pc
    case Unborn => 24
    case EntryLocking => 23
    case StoringRunning => 22
    case SignallingRunning => 21
    case SettingSlot => 17
    case EntryUnlocking => 16
    case TestLocking => 15
    case TestReading => 14
    case TestUnlocking(thrown) => 13
    case Throwing => 12
    case User => 11
    case StoringCause(cause) => 10
    case ReleasingSlot => 9
    case ExitLocking => 8
    case StoringExited => 7
    case SignallingExited => 6
    case ExitUnlocking => 2
    case Terminating => 1
    case Terminated => 0
  }

  function CancellerRank(pc: CancellerPc): nat {
    match pc
    case Away => 0
    case Locking => 3
    case Storing => 2
    case Unlocking => 1
  }

  function Rest(s: State): nat {
    OwnerRank(s.owner) + ChildRank(s.child) + Total(s.cancellers, CancellerRank)
  }

  ghost predicate OwnerNears(s: State, s': State) {
    && s'.cancellers == s.cancellers
    && (s' == s || (OwnerRank(s'.owner) < OwnerRank(s.owner) && ChildRank(s'.child) <= ChildRank(s.child)))
  }

  lemma SpawnNears(s: State, fails: bool)
    requires Spawning(s.owner) && (s.owner.Creating? ==> s.child.Unborn?)
    ensures OwnerNears(s, SpawnNext(s, fails))
  {
  }

  lemma CancelNears(s: State)
    requires Cancelling(s.owner)
    ensures OwnerNears(s, CancelNext(s))
  {
  }

  lemma JoinNears(s: State)
    requires !Spawning(s.owner) && !Cancelling(s.owner) && !s.owner.Usable?
    ensures OwnerNears(s, JoinNext(s))
  {
  }

  lemma OwnerTurnNears(s: State, fails: bool)
    requires s.owner.Creating? ==> s.child.Unborn?
    ensures OwnerNears(s, OwnerNext(s, ToDestroy, fails))
  {
    if Spawning(s.owner) {
      SpawnNears(s, fails);
    } else if Cancelling(s.owner) {
      CancelNears(s);
    } else if !s.owner.Usable? {
      JoinNears(s);
    }
  }

  ghost predicate ChildNears(s: State, s': State) {
    && s'.cancellers == s.cancellers
    && (s' == s || (s'.owner == s.owner && ChildRank(s'.child) < ChildRank(s.child))
        || (s'.owner == Woken(s.owner) && ChildRank(s'.child) + 3 <= ChildRank(s.child)))
  }

  lemma EntryNears(s: State)
    requires Entering(s.child)
    ensures ChildNears(s, EntryNext(s))
  {
  }

  lemma UserNears(s: State, throws: bool, absorbs: bool)
    requires !Entering(s.child) && !Decided(s.child)
    ensures ChildNears(s, UserNext(s, if throws then Throw else Finish, absorbs))
  {
  }

  lemma ExitNears(s: State)
    requires Decided(s.child)
    ensures ChildNears(s, ExitNext(s))
  {
  }

  lemma ChildTurnNears(s: State, throws: bool, absorbs: bool)
    ensures ChildNears(s, ChildNext(s, if throws then Throw else Finish, absorbs))
  {
    if Entering(s.child) {
      EntryNears(s);
    } else if Decided(s.child) {
      ExitNears(s);
    } else {
      UserNears(s, throws, absorbs);
    }
  }

  lemma WokenRank(pc: OwnerPc)
    ensures OwnerRank(Woken(pc)) <= OwnerRank(pc) + 2
  {
  }

  lemma CancellerTurnDescends(s: State, i: nat)
    requires i < |s.cancellers| && !s.cancellers[i].Away?
    ensures var s' := CancellerNext(s, i);
      s' == s || (s'.owner == s.owner && s'.child == s.child
                  && Total(s'.cancellers, CancellerRank) < Total(s.cancellers, CancellerRank))
  {
    var pc := CancellerNext(s, i).cancellers[i];
    TotalUpdate(s.cancellers, i, pc, CancellerRank);
    assert CancellerNext(s, i).cancellers == s.cancellers[i := pc];
  }

  /** Every turn but a spurious wakeup is futile or brings the end nearer. */
  lemma TurnDescends(s: State, turn: Turn)
    requires OwnerInv(s) && !turn.WakeTurn?
    ensures Take(s, turn) == s || Rest(Take(s, turn)) < Rest(s)
  {
    match turn
    case OwnerTurn(fails) => OwnerTurnNears(s, fails);
    case ChildTurn(throws, absorbs) =>
      ChildTurnNears(s, throws, absorbs);
      WokenRank(s.owner);
    case CancellerTurn(i) => if i < |s.cancellers| && !s.cancellers[i].Away? { CancellerTurnDescends(s, i); }
  }

  lemma TurnKeepsInv(s: State, turn: Turn)
    requires Inv(s)
    ensures Inv(Take(s, turn)) && |Take(s, turn).cancellers| == |s.cancellers|
  {
    if TurnAction(s, turn).Some? {
      NextKeepsInv(s, TurnAction(s, turn).value);
      NextGoesForward(s, TurnAction(s, turn).value);
    }
  }

  /** A wakeup that nobody signalled adds two steps at most. */
  lemma TurnAddsTwo(s: State, turn: Turn)
    requires OwnerInv(s)
    ensures Rest(Take(s, turn)) <= Rest(s) + (if turn.WakeTurn? then 2 else 0)
  {
    if turn.WakeTurn? {
      WokenRank(s.owner);
    } else {
      TurnDescends(s, turn);
    }
  }

  function Wakes(turns: seq<Turn>): nat {
    if turns == [] then 0 else (if turns[0].WakeTurn? then 1 else 0) + Wakes(turns[1..])
  }

  lemma {:induction false} TurnsDescend(s: State, turns: seq<Turn>)
    requires Inv(s)
    ensures Inv(Turns(s, turns)) && |Turns(s, turns).cancellers| == |s.cancellers|
    ensures Rest(Turns(s, turns)) <= Rest(s) + 2 * Wakes(turns)
    decreases |turns|
  {
    if turns != [] {
      TurnAddsTwo(s, turns[0]);
      TurnKeepsInv(s, turns[0]);
      TurnsDescend(Take(s, turns[0]), turns[1..]);
    }
  }

  /** Whose turn it is. */
  function Taker(turn: Turn): Holder {
    match turn
    case OwnerTurn(fails) => ByOwner
    case ChildTurn(throws, absorbs) => ByChild
    case CancellerTurn(i) => ByCanceller(i)
    case WakeTurn => Nobody
  }

  /** No turn of the party is futile, whatever choices come with it. */
  ghost predicate Helps(s: State, who: Holder) {
    !who.Nobody? && forall turn: Turn :: Taker(turn) == who ==> Take(s, turn) != s
  }

  /** In a round every party has at least one turn, in any order. */
  ghost predicate Round(turns: seq<Turn>, n: nat) {
    forall who: Holder :: !who.Nobody? && (who.ByCanceller? ==> who.i < n) ==>
      exists k :: 0 <= k < |turns| && Taker(turns[k]) == who
  }

  /** Until the object is gone, some party's turn helps. */
  lemma SomeTurnHelps(s: State) returns (who: Holder)
    requires Inv(s) && !s.owner.Gone?
    ensures Helps(s, who) && (who.ByCanceller? ==> who.i < |s.cancellers|)
  {
    if s.mutex.ByCanceller? {
      who := s.mutex;
      assert CancellerNext(s, who.i).cancellers[who.i] != s.cancellers[who.i];
    } else if s.mutex.Nobody? && exists i :: 0 <= i < |s.cancellers| && !s.cancellers[i].Away? {
      var i :| 0 <= i < |s.cancellers| && !s.cancellers[i].Away?;
      who := ByCanceller(i);
      assert CancellerNext(s, i).cancellers[i] != s.cancellers[i];
    } else if s.mutex.ByChild? || WaitsForChild(s) {
      who := ByChild;
      ChildTurnHelps(s);
    } else {
      who := ByOwner;
      OwnerTurnHelps(s);
    }
  }

  lemma ChildTurnHelps(s: State)
    requires MutexInv(s) && !s.child.Unborn? && !s.child.Terminated? && (s.mutex.Nobody? || s.mutex.ByChild?)
    ensures forall throws, absorbs :: Take(s, ChildTurn(throws, absorbs)) != s
  {
  }

  lemma OwnerTurnHelps(s: State)
    requires MutexInv(s) && OwnerInv(s) && !s.owner.Gone? && (s.mutex.Nobody? || s.mutex.ByOwner?)
    requires !s.owner.SpawnBlocked? && !s.owner.JoinBlocked? && (s.owner.Reaping? ==> s.child.Terminated?)
    requires s.owner.Usable? ==> forall i :: 0 <= i < |s.cancellers| ==> s.cancellers[i].Away?
    ensures forall fails :: Take(s, OwnerTurn(fails)) != s
  {
  }

  lemma ChildIgnoresOwner(s: State, owner: OwnerPc, throws: bool, absorbs: bool)
    ensures var deed := if throws then Throw else Finish;
      && ChildNext(s.(owner := owner), deed, absorbs).child == ChildNext(s, deed, absorbs).child
      && (ChildNext(s, deed, absorbs) != s ==> ChildNext(s, deed, absorbs).child != s.child)
  {
    if Entering(s.child) {
      EntryIgnoresOwner(s, owner);
    } else if Decided(s.child) {
      ExitIgnoresOwner(s, owner);
    }
  }

  lemma EntryIgnoresOwner(s: State, owner: OwnerPc)
    requires Entering(s.child)
    ensures EntryNext(s.(owner := owner)).child == EntryNext(s).child
    ensures EntryNext(s) != s ==> EntryNext(s).child != s.child
  {
  }

  lemma ExitIgnoresOwner(s: State, owner: OwnerPc)
    requires Decided(s.child)
    ensures ExitNext(s.(owner := owner)).child == ExitNext(s).child
    ensures ExitNext(s) != s ==> ExitNext(s).child != s.child
  {
  }

  /** A spurious wakeup takes away nobody's chance to help: who sleeps could not have helped. */
  lemma WakeKeepsHelp(s: State, who: Holder)
    requires Helps(s, who)
    ensures Helps(Take(s, WakeTurn), who)
  {
    var s' := Take(s, WakeTurn);
    match who
    case ByOwner => assert Take(s, OwnerTurn(false)) != s;
    case ByChild =>
      forall throws, absorbs ensures Take(s', ChildTurn(throws, absorbs)) != s' {
        assert Take(s, ChildTurn(throws, absorbs)) != s;
        ChildIgnoresOwner(s, s'.owner, throws, absorbs);
      }
    case ByCanceller(i) => assert Take(s, CancellerTurn(i)) != s;
  }

  /** A turn that helps now still helps when it comes, or something else has helped before. */
  lemma {:induction false} HelpComes(s: State, turns: seq<Turn>, k: nat)
    requires Inv(s) && k < |turns| && Helps(s, Taker(turns[k]))
    ensures Rest(Turns(s, turns)) < Rest(s) + 2 * Wakes(turns)
    decreases |turns|
  {
    TurnKeepsInv(s, turns[0]);
    if turns[0].WakeTurn? {
      TurnAddsTwo(s, turns[0]);
      WakeKeepsHelp(s, Taker(turns[k]));
      assert turns[k] == turns[1..][k - 1];
      HelpComes(Take(s, turns[0]), turns[1..], k - 1);
    } else if Take(s, turns[0]) == s {
      assert turns[k] == turns[1..][k - 1];
      HelpComes(s, turns[1..], k - 1);
    } else {
      TurnDescends(s, turns[0]);
      TurnsDescend(Take(s, turns[0]), turns[1..]);
    }
  }

  lemma RoundDescends(s: State, turns: seq<Turn>)
    requires Inv(s) && !s.owner.Gone? && Round(turns, |s.cancellers|)
    ensures Rest(Turns(s, turns)) < Rest(s) + 2 * Wakes(turns)
  {
    var who := SomeTurnHelps(s);
    var k: nat :| k < |turns| && Taker(turns[k]) == who;
    HelpComes(s, turns, k);
  }

  /** Spurious wakeups in all rounds together. */
  function AllWakes(rounds: seq<seq<Turn>>): nat {
    if rounds == [] then 0 else Wakes(rounds[0]) + AllWakes(rounds[1..])
  }

  function Rounds(s: State, rounds: seq<seq<Turn>>): State
    decreases |rounds|
  {
    if rounds == [] then s else Rounds(Turns(s, rounds[0]), rounds[1..])
  }

  lemma {:induction false} GoneStays(s: State, turns: seq<Turn>)
    requires s.owner.Gone?
    ensures Turns(s, turns).owner.Gone?
    decreases |turns|
  {
    if turns != [] {
      GoneTakes(s, turns[0]);
      GoneStays(Take(s, turns[0]), turns[1..]);
    }
  }

  lemma GoneTakes(s: State, turn: Turn)
    requires s.owner.Gone?
    ensures Take(s, turn).owner.Gone?
  {
  }

  lemma {:induction false} RoundsReachEnd(s: State, rounds: seq<seq<Turn>>)
    requires Inv(s) && |rounds| >= Rest(s) + 2 * AllWakes(rounds)
    requires forall turns :: turns in rounds ==> Round(turns, |s.cancellers|)
    ensures Inv(Rounds(s, rounds)) && Rounds(s, rounds).owner.Gone?
    decreases |rounds|
  {
    if rounds != [] {
      TurnsDescend(s, rounds[0]);
      if s.owner.Gone? {
        GoneStays(s, rounds[0]);
        GoneStaysGone(Turns(s, rounds[0]), rounds[1..]);
      } else {
        RoundDescends(s, rounds[0]);
        RoundsReachEnd(Turns(s, rounds[0]), rounds[1..]);
      }
    }
  }

  lemma {:induction false} GoneStaysGone(s: State, rounds: seq<seq<Turn>>)
    requires Inv(s) && s.owner.Gone?
    ensures Inv(Rounds(s, rounds)) && Rounds(s, rounds).owner.Gone?
    decreases |rounds|
  {
    if rounds != [] {
      TurnsDescend(s, rounds[0]);
      GoneStays(s, rounds[0]);
      GoneStaysGone(Turns(s, rounds[0]), rounds[1..]);
    }
  }

  lemma {:induction false} CancellerRankBound(pcs: seq<CancellerPc>)
    ensures Total(pcs, CancellerRank) <= 3 * |pcs|
  {
    if pcs != [] {
      CancellerRankBound(pcs[1..]);
    }
  }

  /**
   * Progress: after any run at all, once the owner wishes to destroy the object, the thread
   * function ends when it next acts and nobody calls cancel() anew, 34 rounds, 3 more for each
   * canceller and 2 more for each spurious wakeup destroy the object.  Each round is any sequence
   * of turns and wakeups in which every party has a turn.  Then the context has been deleted
   * once, and the thread has ended or was never created.
   */
  lemma ObjectIsDestroyed(n: nat, schedule: seq<Action>, rounds: seq<seq<Turn>>)
    requires |rounds| >= 34 + 3 * n + 2 * AllWakes(rounds) && forall turns :: turns in rounds ==> Round(turns, n)
    ensures var s := Rounds(Run(Init(n), schedule), rounds);
      s.owner.Gone? && s.deletes == 1 && (s.child.Terminated? || s.child.Unborn?)
  {
    RunKeepsInv(n, schedule);
    RunKeepsCancellers(n, schedule);
    CancellerRankBound(Run(Init(n), schedule).cancellers);
    RoundsReachEnd(Run(Init(n), schedule), rounds);
  }

  lemma {:induction false} RunKeepsCancellers(n: nat, schedule: seq<Action>)
    ensures |Run(Init(n), schedule).cancellers| == n
  {
    if schedule != [] {
      RunKeepsCancellers(n, schedule[..|schedule| - 1]);
      RunKeepsInv(n, schedule[..|schedule| - 1]);
      NextGoesForward(Run(Init(n), schedule[..|schedule| - 1]), schedule[|schedule| - 1]);
    }
  }
}
