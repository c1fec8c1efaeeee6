/**
 * The memory pool shared by any number of threads.  An action lets one thread make one access:
 * to the spin lock, to the pool, or to a chunk it holds.  A run is any sequence of actions.
 */
module PoolSystem {
  import opened PoolSpec
  import opened Wrappers
  import opened FreeList
  import opened PoolAnswers
  import opened PoolSections
  import opened Atomics
  import Locks = SpinLocks

  datatype Call = Call(op: Op, result: Result)

  /**
   * lock, core, places and held are the state.  The rest is history: the committed operations
   * (log) and the pool they make of start, the order in which the lock was taken, what each
   * thread last asked for, and the calls that have returned to each thread.
   */
  datatype State = State(
    cfg: Config, lock: Locks.State, core: Core, places: seq<Place>, held: seq<set<int>>,
    start: Pool, pool: Pool, log: seq<Event>, order: seq<nat>, asked: seq<Op>, history: seq<seq<Call>>)

  datatype Action =
    | Invoke(t: nat, op: Op)
    | Store(t: nat, c: int, k: nat, v: int)     // a client writes to a chunk it holds
    | HandOver(t: nat, u: nat, c: int)          // a client passes a chunk it holds to another
    | Move(t: nat, block: Option<int>)

  function Committed(s: State, t: nat, core: Core, place: Place): State
    requires t < |s.places| && place.Leaving? && s.cfg.words >= 1
  {
    s.(core := core, places := s.places[t := place],
       pool := After(s.cfg, s.pool, place.op, place.block),
       log := s.log + [Event(t, place.op, place.block, place.r)])
  }

  predicate Sized(s: State) {
    |s.lock.pcs| == |s.places| == |s.held| == |s.asked| == |s.history| && s.cfg.words >= 1
  }

  function DoInvoke(s: State, t: nat, op: Op): State
    requires Sized(s) && t < |s.places|
  {
    s.(lock := Locks.Next(s.lock, Locks.Start(t, false)),
       places := s.places[t := Calling(op)],
       held := s.held[t := s.held[t] - Transit(Calling(op))],
       asked := s.asked[t := op])
  }

  function Stored(s: State, i: int, v: int): State {
    s.(core := s.core.(mem := Write(s.core.mem, i, v)))
  }

  function DoStore(s: State, t: nat, c: int, k: nat, v: int): State
    requires Sized(s) && t < |s.places|
  {
    if c in s.held[t] && k < s.cfg.words then Stored(s, c + k, v) else s
  }

  function Passed(s: State, t: nat, u: nat, c: int): State
    requires Sized(s) && t < |s.places| && u < |s.places|
  {
    var held := s.held[t := s.held[t] - {c}];
    s.(held := held[u := held[u] + {c}])
  }

  function DoHandOver(s: State, t: nat, u: nat, c: int): State
    requires Sized(s) && t < |s.places|
  {
    if u < |s.places| && c in s.held[t] then Passed(s, t, u, c) else s
  }

  function DoAcquire(s: State, t: nat): State
    requires Sized(s) && t < |s.places| && s.places[t].Calling?
  {
    var lock := Locks.Next(s.lock, Locks.Step(t, false));
    if |lock.pcs| == |s.places| && lock.pcs[t].Holding?
    then s.(lock := lock, places := s.places[t := Entry(s.places[t].op)], order := s.order + [t])
    else s.(lock := lock)
  }

  function DoAdvance(s: State, t: nat, block: Option<int>): State
    requires Sized(s) && t < |s.places|
  {
    var (core, place) := Advance(s.cfg, s.core, s.places[t], block);
    if place.Leaving? then Committed(s, t, core, place) else s.(core := core, places := s.places[t := place])
  }

  function DoRelease(s: State, t: nat): State
    requires Sized(s) && t < |s.places| && s.places[t].Leaving?
  {
    var lock := Locks.Next(s.lock, Locks.Step(t, false));
    if |lock.pcs| == |s.places| && lock.pcs[t].Idle?
    then s.(lock := lock, places := s.places[t := Outside],
            held := s.held[t := s.held[t] + Transit(s.places[t])],
            history := s.history[t := s.history[t] + [Call(s.asked[t], s.places[t].r)]])
    else s.(lock := lock)
  }

  ghost function Next(s: State, a: Action): State {
    if a.t >= |s.places| || !Sized(s) then s
    else match a
      case Invoke(t, op) =>
        if s.places[t].Outside? && (op.Dealloc? ==> op.chunk in s.held[t]) then DoInvoke(s, t, op) else s
      case Store(t, c, k, v) =>
        DoStore(s, t, c, k, v)
      case HandOver(t, u, c) =>
        DoHandOver(s, t, u, c)
      case Move(t, block) =>
        if s.places[t].Outside? then s
        else if s.places[t].Calling? then DoAcquire(s, t)
        else if s.places[t].Leaving? then DoRelease(s, t)
        else if Grants(s.cfg, s.core, s.pool, s.places[t], block) then DoAdvance(s, t, block)
        else s
  }

  /** The lock protocol and the place of each thread agree. */
  predicate Matches(pc: Locks.Pc, place: Place) {
    match place
    case Outside => pc.Idle?
    case Calling(op) =>
      || pc == Locks.Adding(false) || pc == Locks.Reading(false)
      || pc == Locks.BackingOff(false) || pc == Locks.Discarding(false)
    case Leaving(op, b, r) => pc.Holding? || pc.Settling?
    case _ => pc.Holding?
  }

  ghost predicate LockInv(s: State) {
    && Sized(s) && Locks.Inv(s.lock)
    && forall t :: 0 <= t < |s.places| ==> Matches(s.lock.pcs[t], s.places[t])
  }

  /** At most one thread is between taking the lock and committing its operation. */
  ghost predicate OneInside(s: State) {
    forall t, u :: 0 <= t < |s.places| && 0 <= u < |s.places| && Inside(s.places[t]) && Inside(s.places[u]) ==> t == u
  }

  lemma LockMakesOneInside(s: State)
    requires LockInv(s)
    ensures OneInside(s)
  {
  }

  lemma InsideHolds(s: State, t: nat)
    requires LockInv(s) && t < |s.places|
    ensures Inside(s.places[t]) ==> s.lock.pcs[t].Holding?
    ensures s.lock.pcs[t].Holding? ==> forall u :: 0 <= u < |s.places| && u != t ==> !Inside(s.places[u])
  {
  }

  /** The committed operations are a serial history that leads to pool. */
  ghost predicate PoolInv(s: State) {
    && Usable(s.cfg)
    && Ok(s.cfg, |s.core.mem|, s.start) && Ok(s.cfg, |s.core.mem|, s.pool)
    && SerialHistory(s.cfg, |s.core.mem|, s.start, s.log)
    && s.pool == Replay(s.cfg, s.start, s.log)
  }

  /** What a thread owns: the chunks it holds and the one its call carries. */
  function Owned(s: State, t: nat): set<int>
    requires t < |s.places| && t < |s.held|
  {
    s.held[t] + Transit(s.places[t])
  }

  /** Every live chunk has exactly one owner. */
  ghost predicate OwnInv(s: State) {
    && Sized(s)
    && (forall t :: 0 <= t < |s.places| ==> Owned(s, t) <= s.pool.live && s.held[t] !! Transit(s.places[t]))
    && (forall t, u :: 0 <= t < u < |s.places| ==> Owned(s, t) !! Owned(s, u))
    && (forall c :: c in s.pool.live ==> exists t :: 0 <= t < |s.places| && c in Owned(s, t))
  }

  /** Memory holds the free list, or is where the one thread inside the lock has brought it. */
  ghost predicate RawInv(s: State) {
    && s.cfg.words >= 1
    && (forall t :: 0 <= t < |s.places| && Inside(s.places[t]) ==> RawAt(s.cfg, s.core, s.pool, s.places[t]))
    && ((forall t :: 0 <= t < |s.places| ==> !Inside(s.places[t])) ==> Threaded(s.core.mem, s.core.frees, s.pool.free))
  }

  function Clients(log: seq<Event>): seq<nat> {
    seq(|log|, i requires 0 <= i < |log| => log[i].client)
  }

  /** Operations commit in the order in which the lock was taken. */
  ghost predicate OrderInv(s: State) {
    && (forall t :: 0 <= t < |s.places| && Inside(s.places[t]) ==> s.order == Clients(s.log) + [t])
    && ((forall t :: 0 <= t < |s.places| ==> !Inside(s.places[t])) ==> s.order == Clients(s.log))
  }

  /** The calls of one thread in the serial history. */
  function CallsOf(log: seq<Event>, t: nat): seq<Call> {
    if log == [] then []
    else
      var e := log[|log| - 1];
      CallsOf(log[..|log| - 1], t) + (if e.client == t then [Call(e.op, e.result)] else [])
  }

  function OpAt(place: Place): Op {
    match place
    case Calling(op) => op
    case Leaving(op, b, r) => op
    case Returning(c) => Dealloc(c)
    case Crowning(c) => Dealloc(c)
    case _ => Alloc
  }

  function Unreturned(s: State, t: nat): seq<Call>
    requires t < |s.places|
  {
    if s.places[t].Leaving? then [Call(s.places[t].op, s.places[t].r)] else []
  }

  /** Each thread has been returned exactly what the serial history gives it. */
  ghost predicate CallInv(s: State) {
    && Sized(s)
    && forall t :: 0 <= t < |s.places| ==>
         && CallsOf(s.log, t) == s.history[t] + Unreturned(s, t)
         && (!s.places[t].Outside? ==> s.asked[t] == OpAt(s.places[t]))
  }

  ghost predicate Inv(s: State) {
    LockInv(s) && PoolInv(s) && OwnInv(s) && RawInv(s) && OrderInv(s) && CallInv(s)
  }

  // A call begins.

  lemma InvokeKeepsLock(s: State, t: nat, op: Op)
    requires LockInv(s) && t < |s.places| && s.places[t].Outside?
    ensures LockInv(DoInvoke(s, t, op))
  {
    Locks.NextKeepsInv(s.lock, Locks.Start(t, false));
  }

  lemma InvokeKeepsOwners(s: State, t: nat, op: Op)
    requires OwnInv(s) && t < |s.places| && s.places[t].Outside? && (op.Dealloc? ==> op.chunk in s.held[t])
    ensures OwnInv(DoInvoke(s, t, op))
  {
    var s' := DoInvoke(s, t, op);
    forall u | 0 <= u < |s.places| ensures Owned(s', u) == Owned(s, u) {}
  }

  /** A move outside the critical section disturbs neither memory nor the order. */
  lemma QuietMove(s: State, s': State, t: nat, place: Place)
    requires RawInv(s) && OrderInv(s) && t < |s.places|
    requires s'.places == s.places[t := place] && !Inside(s.places[t]) && !Inside(place)
    requires s'.cfg == s.cfg && s'.core == s.core && s'.pool == s.pool && s'.log == s.log && s'.order == s.order
    ensures RawInv(s') && OrderInv(s')
  {
    forall u | 0 <= u < |s.places| ensures Inside(s'.places[u]) == Inside(s.places[u]) {}
  }

  lemma InvokeKeepsCalls(s: State, t: nat, op: Op)
    requires CallInv(s) && t < |s.places| && s.places[t].Outside?
    requires Sized(DoInvoke(s, t, op))
    ensures CallInv(DoInvoke(s, t, op))
  {
  }

  lemma InvokeKeepsInv(s: State, t: nat, op: Op)
    requires Inv(s) && t < |s.places| && s.places[t].Outside? && (op.Dealloc? ==> op.chunk in s.held[t])
    ensures Inv(DoInvoke(s, t, op))
  {
    var s' := DoInvoke(s, t, op);
    InvokeKeepsLock(s, t, op);
    InvokeKeepsOwners(s, t, op);
    InvokeKeepsCalls(s, t, op);
    QuietMove(s, s', t, Calling(op));
  }

  // A client writes to a chunk it holds.

  lemma NotInTransit(s: State, t: nat, u: nat, c: int)
    requires OwnInv(s) && t < |s.places| && u < |s.places| && c in s.held[t]
    ensures c in s.pool.live && c !in Transit(s.places[u])
  {
    assert c in Owned(s, t);
    if u < t {
      assert Owned(s, u) !! Owned(s, t);
    } else if t < u {
      assert Owned(s, t) !! Owned(s, u);
    }
  }

  /** A call that is where place says does not see a store to a live chunk that it does not carry. */
  lemma StoreUnseen(s: State, place: Place, c: int, k: nat, v: int)
    requires Usable(s.cfg) && Ok(s.cfg, |s.core.mem|, s.pool) && k < s.cfg.words
    requires c in s.pool.live && c !in Transit(place) && RawAt(s.cfg, s.core, s.pool, place)
    ensures RawAt(s.cfg, Stored(s, c + k, v).core, s.pool, place)
  {
    assert Stored(s, c + k, v).core == s.core.(mem := Write(s.core.mem, c + k, v));
    ClientWriteUnseen(s.cfg, s.core, s.pool, place, c, c + k, v);
  }

  lemma StoreKeepsFree(s: State, c: int, k: nat, v: int)
    requires Usable(s.cfg) && Ok(s.cfg, |s.core.mem|, s.pool) && k < s.cfg.words
    requires c in s.pool.live && Threaded(s.core.mem, s.core.frees, s.pool.free)
    ensures var core := Stored(s, c + k, v).core; Threaded(core.mem, core.frees, s.pool.free)
  {
    StoreUnseen(s, Outside, c, k, v);
  }

  lemma StoreKeepsRaw(s: State, t: nat, c: int, k: nat, v: int)
    requires PoolInv(s) && OwnInv(s) && RawInv(s) && t < |s.places| && c in s.held[t] && k < s.cfg.words
    ensures RawInv(Stored(s, c + k, v))
  {
    forall u | 0 <= u < |s.places| && Inside(s.places[u])
      ensures RawAt(s.cfg, Stored(s, c + k, v).core, s.pool, s.places[u])
    {
      NotInTransit(s, t, u, c);
      StoreUnseen(s, s.places[u], c, k, v);
    }
    NotInTransit(s, t, t, c);
    if Threaded(s.core.mem, s.core.frees, s.pool.free) {
      StoreKeepsFree(s, c, k, v);
    }
  }

  lemma StoreKeepsOwners(s: State, i: int, v: int)
    requires OwnInv(s)
    ensures OwnInv(Stored(s, i, v))
  {
    forall u | 0 <= u < |s.places| ensures Owned(Stored(s, i, v), u) == Owned(s, u) {}
  }

  lemma StoreKeepsPool(s: State, i: int, v: int)
    requires PoolInv(s)
    ensures PoolInv(Stored(s, i, v))
  {
    assert |Stored(s, i, v).core.mem| == |s.core.mem|;
  }

  lemma StoreKeepsCalls(s: State, i: int, v: int)
    requires CallInv(s)
    ensures CallInv(Stored(s, i, v))
  {
    forall u | 0 <= u < |s.places| ensures Unreturned(Stored(s, i, v), u) == Unreturned(s, u) {}
  }

  // Of each conjunct alone, whether the client holds the chunk or not.

  lemma LockAfterStore(s: State, t: nat, c: int, k: nat, v: int)
    requires LockInv(s) && t < |s.places|
    ensures LockInv(DoStore(s, t, c, k, v))
  {
  }

  lemma OrderAfterStore(s: State, t: nat, c: int, k: nat, v: int)
    requires OrderInv(s) && Sized(s) && t < |s.places|
    ensures OrderInv(DoStore(s, t, c, k, v))
  {
  }

  lemma CallsAfterStore(s: State, t: nat, c: int, k: nat, v: int)
    requires CallInv(s) && t < |s.places|
    ensures CallInv(DoStore(s, t, c, k, v))
  {
    StoreKeepsCalls(s, c + k, v);
  }

  lemma OwnersAfterStore(s: State, t: nat, c: int, k: nat, v: int)
    requires OwnInv(s) && t < |s.places|
    ensures OwnInv(DoStore(s, t, c, k, v))
  {
    StoreKeepsOwners(s, c + k, v);
  }

  lemma PoolAfterStore(s: State, t: nat, c: int, k: nat, v: int)
    requires PoolInv(s) && Sized(s) && t < |s.places|
    ensures PoolInv(DoStore(s, t, c, k, v))
  {
    StoreKeepsPool(s, c + k, v);
  }

  lemma RawAfterStore(s: State, t: nat, c: int, k: nat, v: int)
    requires RawInv(s) && Sized(s) && t < |s.places|
    requires c in s.held[t] && k < s.cfg.words ==> RawInv(Stored(s, c + k, v))
    ensures RawInv(DoStore(s, t, c, k, v))
  {
  }

  lemma StoreKeepsInv(s: State, t: nat, c: int, k: nat, v: int)
    requires Inv(s) && t < |s.places|
    ensures Inv(DoStore(s, t, c, k, v))
  {
    LockAfterStore(s, t, c, k, v);
    OrderAfterStore(s, t, c, k, v);
    CallsAfterStore(s, t, c, k, v);
    OwnersAfterStore(s, t, c, k, v);
    PoolAfterStore(s, t, c, k, v);
    if c in s.held[t] && k < s.cfg.words {
      StoreKeepsRaw(s, t, c, k, v);
    }
    RawAfterStore(s, t, c, k, v);
  }

  // A client passes a chunk on.

  lemma PassedOwns(s: State, t: nat, u: nat, c: int, v: nat)
    requires OwnInv(s) && t < |s.places| && u < |s.places| && v < |s.places| && c in s.held[t]
    ensures var s' := Passed(s, t, u, c);
      && s'.held[v] !! Transit(s'.places[v])
      && Owned(s', v) == (if v == u then Owned(s, v) + {c} else if v == t then Owned(s, v) - {c} else Owned(s, v))
    ensures v != t ==> c !in Owned(s, v)
  {
    NotInTransit(s, t, v, c);
    if v != t { OwnedOnce(s, t, v, c); }
  }

  lemma HandOverKeepsOwners(s: State, t: nat, u: nat, c: int)
    requires OwnInv(s) && t < |s.places| && u < |s.places| && c in s.held[t]
    ensures OwnInv(Passed(s, t, u, c))
  {
    var s' := Passed(s, t, u, c);
    NotInTransit(s, t, u, c);
    forall v | 0 <= v < |s.places| ensures Owned(s', v) <= s.pool.live && s'.held[v] !! Transit(s'.places[v]) {
      PassedOwns(s, t, u, c, v);
    }
    forall v, w | 0 <= v < w < |s.places| ensures Owned(s', v) !! Owned(s', w) {
      PassedOwns(s, t, u, c, v);
      PassedOwns(s, t, u, c, w);
    }
    forall d | d in s'.pool.live ensures exists v :: 0 <= v < |s'.places| && d in Owned(s', v) {
      var v :| 0 <= v < |s.places| && d in Owned(s, v);
      PassedOwns(s, t, u, c, if d == c then u else v);
      assert d in Owned(s', if d == c then u else v);
    }
  }

  lemma OwnedOnce(s: State, t: nat, v: nat, c: int)
    requires OwnInv(s) && t < |s.places| && v < |s.places| && t != v && c in Owned(s, t)
    ensures c !in Owned(s, v)
  {
    if t < v {
      assert Owned(s, t) !! Owned(s, v);
    } else {
      assert Owned(s, v) !! Owned(s, t);
    }
  }

  lemma HandOverKeepsCalls(s: State, t: nat, u: nat, c: int)
    requires CallInv(s) && t < |s.places| && u < |s.places|
    ensures CallInv(Passed(s, t, u, c))
  {
    forall v | 0 <= v < |s.places| ensures Unreturned(Passed(s, t, u, c), v) == Unreturned(s, v) {}
  }

  lemma HandOverKeepsRest(s: State, t: nat, u: nat, c: int)
    requires LockInv(s) && PoolInv(s) && RawInv(s) && OrderInv(s) && t < |s.places| && u < |s.places|
    ensures var s' := Passed(s, t, u, c); LockInv(s') && PoolInv(s') && RawInv(s') && OrderInv(s')
  {
  }

  lemma HandOverKeepsInv(s: State, t: nat, u: nat, c: int)
    requires Inv(s) && t < |s.places|
    ensures Inv(DoHandOver(s, t, u, c))
  {
    if u < |s.places| && c in s.held[t] {
      HandOverKeepsOwners(s, t, u, c);
      HandOverKeepsCalls(s, t, u, c);
      HandOverKeepsRest(s, t, u, c);
    }
  }

  // A call waits for the lock, and gets it.

  lemma LockMoves(s: State, t: nat)
    requires LockInv(s) && t < |s.places|
    ensures var lock := Locks.Next(s.lock, Locks.Step(t, false));
      && Locks.Inv(lock) && |lock.pcs| == |s.places|
      && lock.pcs == s.lock.pcs[t := lock.pcs[t]]
      && (s.places[t].Calling? ==> lock.pcs[t].Holding? || Matches(lock.pcs[t], s.places[t]))
      && (s.places[t].Leaving? ==> lock.pcs[t].Idle? || lock.pcs[t].Settling?)
  {
    Locks.NextKeepsInv(s.lock, Locks.Step(t, false));
  }

  lemma AcquireKeepsLock(s: State, t: nat)
    requires LockInv(s) && t < |s.places| && s.places[t].Calling?
    ensures LockInv(DoAcquire(s, t))
    ensures DoAcquire(s, t).order != s.order ==> forall u :: 0 <= u < |s.places| ==> !Inside(s.places[u])
  {
    LockMoves(s, t);
    var s' := DoAcquire(s, t);
    if s'.order != s.order {
      InsideHolds(s', t);
      forall u | 0 <= u < |s.places| ensures !Inside(s.places[u]) {
        assert u != t ==> s'.places[u] == s.places[u];
      }
    }
  }

  lemma AcquireKeepsOwners(s: State, t: nat)
    requires OwnInv(s) && t < |s.places| && s.places[t].Calling?
    requires Sized(DoAcquire(s, t))
    ensures OwnInv(DoAcquire(s, t))
  {
    var s' := DoAcquire(s, t);
    forall u | 0 <= u < |s.places| ensures Owned(s', u) == Owned(s, u) && s'.held[u] !! Transit(s'.places[u]) {}
  }

  lemma AcquireKeepsRaw(s: State, t: nat)
    requires RawInv(s) && OrderInv(s) && OwnInv(s) && t < |s.places| && s.places[t].Calling?
    requires DoAcquire(s, t).order != s.order ==> forall u :: 0 <= u < |s.places| ==> !Inside(s.places[u])
    ensures RawInv(DoAcquire(s, t)) && OrderInv(DoAcquire(s, t))
  {
    var s' := DoAcquire(s, t);
    if s'.places != s.places {
      assert |s'.order| == |s.order| + 1;
      assert Transit(s.places[t]) <= Owned(s, t);
      forall u | 0 <= u < |s.places| && Inside(s'.places[u]) ensures u == t {}
      assert Inside(s'.places[t]);
    }
  }

  lemma AcquireKeepsCalls(s: State, t: nat)
    requires CallInv(s) && t < |s.places| && s.places[t].Calling?
    requires Sized(DoAcquire(s, t))
    ensures CallInv(DoAcquire(s, t))
  {
  }

  lemma AcquireKeepsInv(s: State, t: nat)
    requires Inv(s) && t < |s.places| && s.places[t].Calling?
    ensures Inv(DoAcquire(s, t))
  {
    AcquireKeepsLock(s, t);
    AcquireKeepsOwners(s, t);
    AcquireKeepsRaw(s, t);
    AcquireKeepsCalls(s, t);
  }

  // A call returns.

  lemma ReleaseKeepsLock(s: State, t: nat)
    requires LockInv(s) && t < |s.places| && s.places[t].Leaving?
    ensures LockInv(DoRelease(s, t))
  {
    LockMoves(s, t);
  }

  lemma ReleaseKeepsOwners(s: State, t: nat)
    requires OwnInv(s) && t < |s.places| && s.places[t].Leaving?
    requires Sized(DoRelease(s, t))
    ensures OwnInv(DoRelease(s, t))
  {
    var s' := DoRelease(s, t);
    forall u | 0 <= u < |s.places| ensures Owned(s', u) == Owned(s, u) && s'.held[u] !! Transit(s'.places[u]) {}
  }

  lemma ReleaseKeepsCalls(s: State, t: nat)
    requires CallInv(s) && t < |s.places| && s.places[t].Leaving?
    requires Sized(DoRelease(s, t))
    ensures CallInv(DoRelease(s, t))
  {
  }

  lemma ReleaseKeepsInv(s: State, t: nat)
    requires Inv(s) && t < |s.places| && s.places[t].Leaving?
    ensures Inv(DoRelease(s, t))
  {
    var s' := DoRelease(s, t);
    ReleaseKeepsLock(s, t);
    ReleaseKeepsOwners(s, t);
    ReleaseKeepsCalls(s, t);
    if s'.places != s.places {
      QuietMove(s, s', t, Outside);
    }
  }

  // A call moves on inside the lock, or commits.

  lemma AdvanceKeepsShape(cfg: Config, core: Core, place: Place, block: Option<int>)
    requires Inside(place)
    ensures var place' := Advance(cfg, core, place, block).1;
      && (Inside(place') || place'.Leaving?) && OpAt(place') == OpAt(place)
      && (Inside(place') ==> Transit(place') == Transit(place))
      && (place'.Leaving? ==> Transit(place) == if place'.op.Dealloc? then {place'.op.chunk} else {})
      && (place'.Leaving? ==> place'.r.Freed? == place'.op.Dealloc?)
  {
  }

  predicate Exchanged(live: set<int>, live': set<int>, op: Op, r: Result) {
    match op
    case Dealloc(c) => r.Freed? && live' == live - {c}
    case Alloc => if r.Got? then r.chunk !in live && live' == live + {r.chunk} else r.BadAlloc? && live' == live
  }

  /** What a commit does to the live chunks. */
  lemma CommittedLive(cfg: Config, size: nat, pool: Pool, op: Op, block: Option<int>)
    requires Usable(cfg) && Ok(cfg, size, pool) && Legal(cfg, size, pool, op, block)
    ensures Exchanged(pool.live, After(cfg, pool, op, block).live, op, ResultOf(cfg, pool, op, block))
  {
    if op.Alloc? {
      var q := Refilled(cfg, pool, block);
      if pool.free == [] && block.Some? {
        GrownKeepsOk(cfg, size, pool, block.value, cfg.growth);
      }
      if q.free != [] { assert q.free[0] in q.free; }
    }
  }

  function Moved(s: State, t: nat, core: Core, place: Place): State
    requires t < |s.places|
  {
    s.(core := core, places := s.places[t := place])
  }

  ghost predicate AloneInside(places: seq<Place>, t: nat) {
    forall u :: 0 <= u < |places| && u != t ==> !Inside(places[u])
  }

  lemma OthersStayOut(s: State, t: nat, place: Place)
    requires OneInside(s) && t < |s.places| && Inside(s.places[t])
    ensures AloneInside(s.places[t := place], t)
  {
  }

  lemma MoveKeepsRaw(s: State, t: nat, core: Core, place: Place)
    requires OneInside(s) && RawInv(s) && OrderInv(s) && t < |s.places| && Inside(s.places[t]) && Inside(place)
    requires RawAt(s.cfg, core, s.pool, place)
    ensures RawInv(Moved(s, t, core, place)) && OrderInv(Moved(s, t, core, place))
  {
    OthersStayOut(s, t, place);
    assert Inside(Moved(s, t, core, place).places[t]);
  }

  lemma MoveKeepsOwners(s: State, t: nat, core: Core, place: Place)
    requires OwnInv(s) && t < |s.places| && Transit(place) == Transit(s.places[t])
    ensures OwnInv(Moved(s, t, core, place))
  {
    forall u | 0 <= u < |s.places| ensures Owned(Moved(s, t, core, place), u) == Owned(s, u) {}
  }

  lemma MoveKeepsCalls(s: State, t: nat, core: Core, place: Place)
    requires CallInv(s) && t < |s.places| && Inside(s.places[t]) && Inside(place) && OpAt(place) == OpAt(s.places[t])
    ensures CallInv(Moved(s, t, core, place))
  {
    forall u | 0 <= u < |s.places| ensures Unreturned(Moved(s, t, core, place), u) == Unreturned(s, u) {}
  }

  lemma MoveKeepsLock(s: State, t: nat, core: Core, place: Place)
    requires LockInv(s) && t < |s.places| && Inside(s.places[t]) && Inside(place)
    ensures LockInv(Moved(s, t, core, place))
  {
  }

  lemma MoveInsideKeepsInv(s: State, t: nat, core: Core, place: Place)
    requires Inv(s) && t < |s.places| && Inside(s.places[t]) && Inside(place)
    requires |core.mem| == |s.core.mem| && RawAt(s.cfg, core, s.pool, place)
    requires Transit(place) == Transit(s.places[t]) && OpAt(place) == OpAt(s.places[t])
    ensures Inv(Moved(s, t, core, place))
  {
    LockMakesOneInside(s);
    MoveKeepsLock(s, t, core, place);
    MoveKeepsRaw(s, t, core, place);
    MoveKeepsOwners(s, t, core, place);
    MoveKeepsCalls(s, t, core, place);
  }

  lemma CommitKeepsPool(s: State, t: nat, core: Core, place: Place)
    requires PoolInv(s) && t < |s.places| && place.Leaving? && |core.mem| == |s.core.mem|
    requires Commits(s.cfg, core, s.pool, place)
    ensures PoolInv(Committed(s, t, core, place))
  {
    var log' := s.log + [Event(t, place.op, place.block, place.r)];
    assert log'[..|log'| - 1] == s.log;
    AfterKeepsOk(s.cfg, |core.mem|, s.pool, place.op, place.block);
  }

  lemma CommitKeepsRaw(s: State, t: nat, core: Core, place: Place)
    requires OneInside(s) && OrderInv(s) && RawInv(s) && t < |s.places| && Inside(s.places[t]) && place.Leaving?
    requires Commits(s.cfg, core, s.pool, place)
    ensures RawInv(Committed(s, t, core, place)) && OrderInv(Committed(s, t, core, place))
  {
    OthersStayOut(s, t, place);
    var s' := Committed(s, t, core, place);
    forall u | 0 <= u < |s.places| ensures !Inside(s'.places[u]) { assert s'.places == s.places[t := place]; }
    assert Clients(s'.log) == Clients(s.log) + [t];
  }

  /** The ownership of one thread changes together with the live chunks. */
  lemma OwnersFollow(s: State, s': State, t: nat, taken: set<int>, given: set<int>)
    requires OwnInv(s) && Sized(s') && |s'.places| == |s.places| && t < |s.places|
    requires forall u :: 0 <= u < |s.places| && u != t ==> s'.places[u] == s.places[u] && s'.held[u] == s.held[u]
    requires taken <= Owned(s, t) && given !! s.pool.live
    requires Owned(s', t) == Owned(s, t) - taken + given && s'.held[t] !! Transit(s'.places[t])
    requires s'.pool.live == s.pool.live - taken + given
    ensures OwnInv(s')
  {
    forall u | 0 <= u < |s.places| && u != t ensures Owned(s', u) == Owned(s, u) && Owned(s, u) !! Owned(s, t) {
      if u < t { assert Owned(s, u) !! Owned(s, t); } else { assert Owned(s, t) !! Owned(s, u); }
    }
    forall u, v | 0 <= u < v < |s.places| ensures Owned(s', u) !! Owned(s', v) {
      if u != t && v != t { assert Owned(s, u) !! Owned(s, v); }
    }
    forall c | c in s'.pool.live ensures exists u :: 0 <= u < |s.places| && c in Owned(s', u) {
      if c in given {
        assert c in Owned(s', t);
      } else {
        var u :| 0 <= u < |s.places| && c in Owned(s, u);
        assert c in Owned(s', u);
      }
    }
  }

  lemma CommitKeepsOwners(s: State, t: nat, core: Core, place: Place)
    requires PoolInv(s) && OwnInv(s) && t < |s.places| && place.Leaving?
    requires Legal(s.cfg, |s.core.mem|, s.pool, place.op, place.block)
    requires place.r == ResultOf(s.cfg, s.pool, place.op, place.block)
    requires Transit(s.places[t]) == if place.op.Dealloc? then {place.op.chunk} else {}
    ensures OwnInv(Committed(s, t, core, place))
  {
    var taken, given := Transit(s.places[t]), Transit(place);
    CommittedLive(s.cfg, |s.core.mem|, s.pool, place.op, place.block);
    CommitMovesChunks(s, t, core, place);
    OwnersFollow(s, Committed(s, t, core, place), t, taken, given);
  }

  lemma CommitMovesChunks(s: State, t: nat, core: Core, place: Place)
    requires t < |s.places| && place.Leaving? && Sized(s)
    requires Owned(s, t) <= s.pool.live && s.held[t] !! Transit(s.places[t])
    requires Exchanged(s.pool.live, Committed(s, t, core, place).pool.live, place.op, place.r)
    requires Transit(s.places[t]) == if place.op.Dealloc? then {place.op.chunk} else {}
    ensures var taken, given, s' := Transit(s.places[t]), Transit(place), Committed(s, t, core, place);
      && taken <= Owned(s, t) && given !! s.pool.live
      && s'.pool.live == s.pool.live - taken + given
      && Owned(s', t) == Owned(s, t) - taken + given && s'.held[t] !! Transit(s'.places[t])
  {
    OwnedAfterCommit(s.held[t], Transit(s.places[t]), Transit(place), s.pool.live);
  }

  lemma OwnedAfterCommit(held: set<int>, taken: set<int>, given: set<int>, live: set<int>)
    requires held !! taken && held + taken <= live && given !! live
    ensures held + given == held + taken - taken + given && held !! given
  {
  }

  lemma CommitKeepsCalls(s: State, t: nat, core: Core, place: Place)
    requires CallInv(s) && t < |s.places| && Inside(s.places[t]) && place.Leaving? && place.op == OpAt(s.places[t])
    ensures CallInv(Committed(s, t, core, place))
  {
    var s' := Committed(s, t, core, place);
    assert s'.log[..|s'.log| - 1] == s.log;
    forall u | 0 <= u < |s.places|
      ensures CallsOf(s'.log, u) == s'.history[u] + Unreturned(s', u)
    {
      assert u != t ==> Unreturned(s', u) == Unreturned(s, u);
    }
  }

  lemma CommitKeepsInv(s: State, t: nat, core: Core, place: Place)
    requires Inv(s) && t < |s.places| && Inside(s.places[t]) && place.Leaving? && |core.mem| == |s.core.mem|
    requires Commits(s.cfg, core, s.pool, place) && place.op == OpAt(s.places[t])
    requires Transit(s.places[t]) == if place.op.Dealloc? then {place.op.chunk} else {}
    ensures Inv(Committed(s, t, core, place))
  {
    LockMakesOneInside(s);
    CommitKeepsPool(s, t, core, place);
    CommitKeepsRaw(s, t, core, place);
    CommitKeepsOwners(s, t, core, place);
    CommitKeepsCalls(s, t, core, place);
  }

  lemma AdvanceKeepsInv(s: State, t: nat, block: Option<int>)
    requires Inv(s) && t < |s.places| && Inside(s.places[t]) && Grants(s.cfg, s.core, s.pool, s.places[t], block)
    ensures Inv(DoAdvance(s, t, block))
  {
    var (core, place) := Advance(s.cfg, s.core, s.places[t], block);
    AdvanceRefines(s.cfg, s.core, s.pool, s.places[t], block);
    AdvanceKeepsShape(s.cfg, s.core, s.places[t], block);
    if place.Leaving? {
      CommitKeepsInv(s, t, core, place);
    } else {
      MoveInsideKeepsInv(s, t, core, place);
    }
  }

  lemma MoveIs(s: State, t: nat, block: Option<int>)
    requires Sized(s) && t < |s.places|
    ensures Next(s, Move(t, block)) ==
      if s.places[t].Calling? then DoAcquire(s, t)
      else if s.places[t].Leaving? then DoRelease(s, t)
      else if Inside(s.places[t]) && Grants(s.cfg, s.core, s.pool, s.places[t], block) then DoAdvance(s, t, block)
      else s
  {
  }

  lemma MoveKeepsInv(s: State, t: nat, block: Option<int>)
    requires Inv(s) && t < |s.places|
    ensures Inv(Next(s, Move(t, block)))
  {
    MoveIs(s, t, block);
    if s.places[t].Calling? {
      AcquireKeepsInv(s, t);
    } else if s.places[t].Leaving? {
      ReleaseKeepsInv(s, t);
    } else if Inside(s.places[t]) && Grants(s.cfg, s.core, s.pool, s.places[t], block) {
      AdvanceKeepsInv(s, t, block);
    }
  }

  lemma InvokeStep(s: State, t: nat, op: Op)
    requires Inv(s) && t < |s.places|
    ensures Inv(Next(s, Invoke(t, op)))
  {
    if s.places[t].Outside? && (op.Dealloc? ==> op.chunk in s.held[t]) {
      InvokeKeepsInv(s, t, op);
    }
  }

  lemma NextKeepsInv(s: State, a: Action)
    requires Inv(s)
    ensures Inv(Next(s, a))
  {
    if a.t < |s.places| {
      match a
      case Invoke(t, op) => InvokeStep(s, t, op);
      case Store(t, c, k, v) => StoreKeepsInv(s, t, c, k, v);
      case HandOver(t, u, c) => HandOverKeepsInv(s, t, u, c);
      case Move(t, block) => MoveKeepsInv(s, t, block);
    }
  }

  lemma NextKeepsFrame(s: State, a: Action)
    requires Sized(s)
    ensures var s' := Next(s, a);
      s'.cfg == s.cfg && s'.start == s.start && |s'.places| == |s.places| && |s'.core.mem| == |s.core.mem|
  {
    if a.t < |s.places| && a.Move? {
      OneWordWritten(s.cfg, s.core, s.places[a.t], a.block);
    }
  }

  ghost function Run(s: State, schedule: seq<Action>): State {
    if schedule == [] then s else Next(Run(s, schedule[..|schedule| - 1]), schedule[|schedule| - 1])
  }

  /** n threads share the pool that the constructor has made of its first block. */
  function Init(form: Form, n: nat, cfg: Config, base: int, core: Core): State {
    State(cfg, Locks.Init(form, n), core, seq(n, i => Outside), seq(n, i => {}),
          Initial(cfg, base), Initial(cfg, base), [], [], seq(n, i => Alloc), seq(n, i => []))
  }

  /** What the constructor of MemPool leaves behind. */
  ghost predicate Constructed(cfg: Config, base: int, core: Core) {
    && Usable(cfg)
    && Fresh(cfg, |core.mem|, Pool([], {}, 0), base, cfg.chunkCount)
    && Threaded(core.mem, core.frees, Initial(cfg, base).free)
  }

  lemma InitHasInv(form: Form, n: nat, cfg: Config, base: int, core: Core)
    requires Constructed(cfg, base, core)
    ensures Inv(Init(form, n, cfg, base, core))
  {
    InitThreads(form, n, cfg, base, core);
    InitPool(form, n, cfg, base, core);
  }

  lemma InitThreads(form: Form, n: nat, cfg: Config, base: int, core: Core)
    requires Constructed(cfg, base, core)
    ensures var s := Init(form, n, cfg, base, core); LockInv(s) && CallInv(s) && OwnInv(s)
  {
    Locks.RunKeepsInv(form, n, []);
    DepositedKeepsLive(cfg, base);
  }

  lemma InitPool(form: Form, n: nat, cfg: Config, base: int, core: Core)
    requires Constructed(cfg, base, core)
    ensures var s := Init(form, n, cfg, base, core); PoolInv(s) && RawInv(s) && OrderInv(s)
  {
    InitialIsOk(cfg, |core.mem|, base);
  }

  lemma DepositedKeepsLive(cfg: Config, base: int)
    ensures Initial(cfg, base).live == {}
  {
  }

  lemma {:induction false} RunKeepsInv(s: State, schedule: seq<Action>)
    requires Inv(s)
    ensures var s' := Run(s, schedule);
      Inv(s') && s'.cfg == s.cfg && s'.start == s.start && |s'.places| == |s.places| && |s'.core.mem| == |s.core.mem|
  {
    if schedule != [] {
      RunKeepsInv(s, schedule[..|schedule| - 1]);
      NextKeepsInv(Run(s, schedule[..|schedule| - 1]), schedule[|schedule| - 1]);
      NextKeepsFrame(Run(s, schedule[..|schedule| - 1]), schedule[|schedule| - 1]);
    }
  }

  /**
   * Every run of alloc() and dealloc(), with any interleaving of lock accesses, pool accesses
   * and client writes, gives each thread the results of one serial run of a plain stack, in
   * the order in which the lock was taken: each thread has been returned all its calls in that
   * history but at most the last, and the history lacks at most the last thread to take the lock.
   */
  lemma RunsAreSerial(form: Form, n: nat, cfg: Config, base: int, core: Core, schedule: seq<Action>)
    requires Constructed(cfg, base, core)
    ensures var s := Run(Init(form, n, cfg, base, core), schedule);
      && SerialHistory(cfg, |core.mem|, Initial(cfg, base), s.log)
      && AllAnswered(cfg, s.log)
      && |s.history| == n
      && (forall t :: 0 <= t < n ==> s.history[t] <= CallsOf(s.log, t) && |CallsOf(s.log, t)| <= |s.history[t]| + 1)
      && Clients(s.log) <= s.order && |s.order| <= |s.log| + 1
  {
    InitHasInv(form, n, cfg, base, core);
    RunKeepsInv(Init(form, n, cfg, base, core), schedule);
    OrderIsPrefix(Run(Init(form, n, cfg, base, core), schedule));
    HistoryIsAnswered(cfg, |core.mem|, base, Run(Init(form, n, cfg, base, core), schedule).log);
  }

  /** The operation of the history that gave a thread its j-th call. */
  lemma {:induction false} CallIndex(log: seq<Event>, t: nat, j: nat) returns (k: nat)
    requires j < |CallsOf(log, t)|
    ensures k < |log| && log[k].client == t && CallsOf(log, t)[j] == Call(log[k].op, log[k].result)
  {
    if j < |CallsOf(log[..|log| - 1], t)| {
      k := CallIndex(log[..|log| - 1], t, j);
    } else {
      k := |log| - 1;
    }
  }

  /**
   * Each alloc() that has returned to a thread, in whatever run, threw exactly if at its place in
   * the order of the lock all chunks were held and operator new gave no block; else it gave the
   * thread a chunk that nobody held there.
   */
  lemma ReturnsAreJust(form: Form, n: nat, cfg: Config, base: int, core: Core, schedule: seq<Action>, t: nat, j: nat)
    returns (k: nat)
    requires Constructed(cfg, base, core) && t < n
    requires var s := Run(Init(form, n, cfg, base, core), schedule);
      |s.history| == n && j < |s.history[t]| && s.history[t][j].op.Alloc?
    ensures var s := Run(Init(form, n, cfg, base, core), schedule);
      && k < |s.log| && s.log[k].client == t && Call(s.log[k].op, s.log[k].result) == s.history[t][j]
      && var r, l := s.history[t][j].result, LedgerOf(cfg, s.log[..k]);
      && (r.BadAlloc? <==> Exhausted(l) && s.log[k].block.None?)
      && (!r.BadAlloc? ==> r.Got? && r.chunk !in l.held)
  {
    RunsAreSerial(form, n, cfg, base, core, schedule);
    var s := Run(Init(form, n, cfg, base, core), schedule);
    k := CallIndex(s.log, t, j);
    assert Answered(cfg, s.log, k);
  }

  lemma OrderIsPrefix(s: State)
    requires OrderInv(s)
    ensures Clients(s.log) <= s.order && |s.order| <= |s.log| + 1
  {
    if t :| 0 <= t < |s.places| && Inside(s.places[t]) {
      assert s.order == Clients(s.log) + [t];
    }
  }

  /** No chunk is ever held by two clients, and every chunk a client holds is live in the serial history. */
  lemma NoChunkHeldTwice(form: Form, n: nat, cfg: Config, base: int, core: Core, schedule: seq<Action>)
    requires Constructed(cfg, base, core)
    ensures var s := Run(Init(form, n, cfg, base, core), schedule);
      && |s.held| == n
      && (forall t, u :: 0 <= t < u < n ==> s.held[t] !! s.held[u])
      && (forall t :: 0 <= t < n ==> s.held[t] <= Replay(cfg, Initial(cfg, base), s.log).live)
  {
    InitHasInv(form, n, cfg, base, core);
    var s := Run(Init(form, n, cfg, base, core), schedule);
    RunKeepsInv(Init(form, n, cfg, base, core), schedule);
    forall t, u | 0 <= t < u < n ensures s.held[t] !! s.held[u] {
      assert Owned(s, t) !! Owned(s, u);
    }
    forall t | 0 <= t < n ensures s.held[t] <= s.pool.live {
      assert Owned(s, t) <= s.pool.live;
    }
  }

  /** With no call in progress, memory holds exactly the stack of the serial history, and all live chunks are held. */
  lemma QuiescentPoolIsTheStack(form: Form, n: nat, cfg: Config, base: int, core: Core, schedule: seq<Action>)
    requires Constructed(cfg, base, core)
    requires var s := Run(Init(form, n, cfg, base, core), schedule);
      |s.places| == n && forall t :: 0 <= t < n ==> s.places[t].Outside?
    ensures var s := Run(Init(form, n, cfg, base, core), schedule);
      var p := Replay(cfg, Initial(cfg, base), s.log);
      && Threaded(s.core.mem, s.core.frees, p.free)
      && s.order == Clients(s.log)
      && |s.history| == |s.held| == n
      && (forall t :: 0 <= t < n ==> s.history[t] == CallsOf(s.log, t))
      && (forall c :: c in p.live <==> exists t :: 0 <= t < n && c in s.held[t])
  {
    InitHasInv(form, n, cfg, base, core);
    var s := Run(Init(form, n, cfg, base, core), schedule);
    RunKeepsInv(Init(form, n, cfg, base, core), schedule);
    QuiescentCalls(s);
    QuiescentOwners(s);
  }

  lemma QuiescentCalls(s: State)
    requires CallInv(s) && OrderInv(s) && RawInv(s) && forall t :: 0 <= t < |s.places| ==> s.places[t].Outside?
    ensures forall t :: 0 <= t < |s.places| ==> s.history[t] == CallsOf(s.log, t)
    ensures s.order == Clients(s.log) && Threaded(s.core.mem, s.core.frees, s.pool.free)
  {
    forall t | 0 <= t < |s.places| ensures s.history[t] == CallsOf(s.log, t) {
      assert Unreturned(s, t) == [];
    }
  }

  lemma QuiescentOwners(s: State)
    requires OwnInv(s) && forall t :: 0 <= t < |s.places| ==> s.places[t].Outside?
    ensures forall c :: c in s.pool.live <==> exists t :: 0 <= t < |s.places| && c in s.held[t]
  {
    forall c ensures c in s.pool.live <==> exists t :: 0 <= t < |s.places| && c in s.held[t] {
      if c in s.pool.live {
        var t :| 0 <= t < |s.places| && c in Owned(s, t);
        assert c in s.held[t];
      }
      if t :| 0 <= t < |s.places| && c in s.held[t] {
        assert Owned(s, t) <= s.pool.live;
      }
    }
  }

  /** Footprint of a shared pool: growth happens only in the serial history, so its bound carries over. */
  lemma SharedFootprint(form: Form, n: nat, chunkCount: nat, words: nat, base: int, core: Core,
                        schedule: seq<Action>, peak: nat)
    requires chunkCount >= 1 && 1 <= words <= 128 && Constructed(PoolConfig(chunkCount, words), base, core)
    requires var cfg := PoolConfig(chunkCount, words);
      NeverAbove(cfg, Initial(cfg, base), Run(Init(form, n, cfg, base, core), schedule).log, peak)
    ensures Run(Init(form, n, PoolConfig(chunkCount, words), base, core), schedule).pool.total
         <= Max(chunkCount, peak + GrowthCount(chunkCount, words) - 1)
  {
    var cfg := PoolConfig(chunkCount, words);
    InitHasInv(form, n, cfg, base, core);
    RunKeepsInv(Init(form, n, cfg, base, core), schedule);
    Footprint(chunkCount, words, |core.mem|, base, Run(Init(form, n, cfg, base, core), schedule).log, peak);
  }

  ghost predicate Intact(mem: seq<int>, mem': seq<int>, c: int, words: nat) {
    && 0 <= c && c + words <= |mem| == |mem'|
    && mem[c..c + words] == mem'[c..c + words]
  }

  lemma HeldIsLaid(s: State, u: nat, c: int)
    requires PoolInv(s) && OwnInv(s) && u < |s.places| && c in s.held[u]
    ensures c in s.pool.live && 0 <= c && c + s.cfg.words <= |s.core.mem|
  {
    NotInTransit(s, u, u, c);
    assert c in Chunks(s.pool);
  }

  lemma DifferentChunks(s: State, t: nat, d: int, u: nat, c: int)
    requires PoolInv(s) && OwnInv(s) && t < |s.places| && u < |s.places|
    requires d in s.held[t] && c in s.held[u] && (t != u || d != c)
    ensures c + s.cfg.words <= d || d + s.cfg.words <= c
  {
    assert c in Owned(s, u) && d in Owned(s, t);
    if t < u { assert Owned(s, t) !! Owned(s, u); }
    if u < t { assert Owned(s, u) !! Owned(s, t); }
    assert c in Chunks(s.pool) && d in Chunks(s.pool);
  }

  lemma StoreKeepsOthersData(s: State, t: nat, d: int, k: nat, v: int, u: nat, c: int)
    requires PoolInv(s) && OwnInv(s) && t < |s.places| && u < |s.places| && c in s.held[u] && (t != u || d != c)
    ensures Intact(s.core.mem, DoStore(s, t, d, k, v).core.mem, c, s.cfg.words)
  {
    HeldIsLaid(s, u, c);
    if d in s.held[t] && k < s.cfg.words {
      DifferentChunks(s, t, d, u, c);
    }
  }

  lemma SliceKept(mem: seq<int>, mem': seq<int>, chunks: set<int>, words: nat, c: int)
    requires SameData(mem, mem', chunks, words) && c in chunks && 0 <= c && c + words <= |mem|
    ensures Intact(mem, mem', c, words)
  {
  }

  lemma AdvanceKeepsOthersData(s: State, t: nat, block: Option<int>, u: nat, c: int)
    requires PoolInv(s) && OwnInv(s) && RawInv(s) && t < |s.places| && u < |s.places|
    requires c in s.held[u] && Inside(s.places[t])
    ensures Intact(s.core.mem, Advance(s.cfg, s.core, s.places[t], block).0.mem, c, s.cfg.words)
  {
    HeldIsLaid(s, u, c);
    NotInTransit(s, u, t, c);
    AdvanceKeepsData(s.cfg, s.core, s.pool, s.places[t], block);
    var mem' := Advance(s.cfg, s.core, s.places[t], block).0.mem;
    SliceKept(s.core.mem, mem', s.pool.live - Transit(s.places[t]), s.cfg.words, c);
  }

  lemma AdvanceCore(s: State, t: nat, block: Option<int>)
    requires Sized(s) && t < |s.places|
    ensures DoAdvance(s, t, block).core == Advance(s.cfg, s.core, s.places[t], block).0
  {
  }

  /** Only a client's store and a step inside the lock change memory. */
  lemma CoreAfter(s: State, a: Action)
    requires Sized(s) && a.t < |s.places|
    ensures Next(s, a).core ==
      if a.Store? then DoStore(s, a.t, a.c, a.k, a.v).core
      else if a.Move? && Inside(s.places[a.t]) && Grants(s.cfg, s.core, s.pool, s.places[a.t], a.block)
      then DoAdvance(s, a.t, a.block).core
      else s.core
  {
  }

  lemma StepKeepsClientData(s: State, a: Action, core: Core, u: nat, c: int)
    requires PoolInv(s) && OwnInv(s) && RawInv(s) && core == Next(s, a).core
    requires u < |s.places| && c in s.held[u] && (a.Store? ==> a.t != u || a.c != c)
    ensures Intact(s.core.mem, core.mem, c, s.cfg.words)
  {
    HeldIsLaid(s, u, c);
    if a.t < |s.places| {
      CoreAfter(s, a);
      if a.Store? {
        StoreKeepsOthersData(s, a.t, a.c, a.k, a.v, u, c);
      } else if a.Move? && Inside(s.places[a.t]) {
        AdvanceKeepsOthersData(s, a.t, a.block, u, c);
        AdvanceCore(s, a.t, a.block);
      }
    }
  }

  /** What a client stores in a chunk it holds is there. */
  lemma StoreTakesEffect(form: Form, n: nat, cfg: Config, base: int, core: Core, schedule: seq<Action>,
                         s: State, t: nat, c: int, k: nat, v: int)
    requires Constructed(cfg, base, core) && s == Run(Init(form, n, cfg, base, core), schedule)
    requires t < |s.held| && c in s.held[t] && k < cfg.words
    ensures 0 <= c && c + k < |Next(s, Store(t, c, k, v)).core.mem| && Next(s, Store(t, c, k, v)).core.mem[c + k] == v
  {
    InitHasInv(form, n, cfg, base, core);
    RunKeepsInv(Init(form, n, cfg, base, core), schedule);
    HeldIsLaid(s, t, c);
    StoreWrites(s, t, c, k, v);
  }

  lemma StoreWrites(s: State, t: nat, c: int, k: nat, v: int)
    requires Sized(s) && t < |s.places| && c in s.held[t] && k < s.cfg.words && 0 <= c && c + k < |s.core.mem|
    ensures Next(s, Store(t, c, k, v)).core.mem == s.core.mem[c + k := v]
  {
    CoreAfter(s, Store(t, c, k, v));
  }

  /** A chunk's words change only when its own client writes to it, whoever else allocates, frees or writes. */
  lemma ClientDataIsPrivate(form: Form, n: nat, cfg: Config, base: int, core: Core, schedule: seq<Action>,
                            s: State, a: Action, u: nat, c: int)
    requires Constructed(cfg, base, core) && s == Run(Init(form, n, cfg, base, core), schedule)
    requires u < |s.held| && c in s.held[u] && (a.Store? ==> a.t != u || a.c != c)
    ensures Intact(s.core.mem, Next(s, a).core.mem, c, cfg.words)
  {
    InitHasInv(form, n, cfg, base, core);
    RunKeepsInv(Init(form, n, cfg, base, core), schedule);
    StepKeepsClientData(s, a, Next(s, a).core, u, c);
  }
}
