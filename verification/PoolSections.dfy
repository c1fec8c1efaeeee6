/**
 * The code that alloc() and dealloc() run between taking and releasing the lock, cut into steps
 * of at most one write, and its refinement of the plain stack.
 */
module PoolSections {
  import opened PoolSpec
  import opened Wrappers
  import opened FreeList

  /** The fields of the pool and the memory its blocks live in. */
  datatype Core = Core(mem: seq<int>, allocs: int, frees: int)

  /** Where a thread stands in alloc() or dealloc(). */
  datatype Place =
    | Outside
    | Calling(op: Op)                                    // acquiring the lock
    | Testing                                            // about to test m_frees
    | Growing                                            // about to ask operator new
    | Linking(base: int)                                 // about to link the block
    | Listing(base: int)                                 // about to store m_allocs
    | Depositing(base: int, k: nat, raw: int)            // about to link chunk k
    | Heading(base: int, k: nat, raw: int)               // about to make chunk k the head
    | Taking(block: Option<int>)                         // about to read m_frees
    | Popping(block: Option<int>, c: int)                // about to read the link of the head
    | Storing(block: Option<int>, c: int, link: int)     // about to store m_frees
    | Returning(c: int)                                  // dealloc: about to link the chunk
    | Crowning(c: int)                                   // dealloc: about to make it the head
    | Leaving(op: Op, block: Option<int>, r: Result)     // done, releasing the lock

  function Read(mem: seq<int>, i: int): int { if 0 <= i < |mem| then mem[i] else 0 }
  function Write(mem: seq<int>, i: int, v: int): seq<int> { if 0 <= i < |mem| then mem[i := v] else mem }

  function Entry(op: Op): Place {
    match op
    case Alloc => Testing
    case Dealloc(c) => Returning(c)
  }

  /** One step inside the lock; block is what operator new gives, used only when it is asked. */
  function Advance(cfg: Config, core: Core, place: Place, block: Option<int>): (Core, Place) {
    match place
    case Testing => (core, if core.frees == 0 then Growing else Taking(None))
    case Growing => (core, if block.None? then Leaving(Alloc, None, BadAlloc) else Linking(block.value))
    case Linking(base) => (core.(mem := Write(core.mem, base, core.allocs)), Listing(base))
    case Listing(base) => (core.(allocs := base), Depositing(base, 0, base))
    case Depositing(base, k, raw) => (core.(mem := Write(core.mem, raw, core.frees)), Heading(base, k, raw))
    case Heading(base, k, raw) =>
      (core.(frees := raw), if k + 1 < cfg.growth then Depositing(base, k + 1, raw + cfg.words) else Taking(Some(base)))
    case Taking(b) => (core, Popping(b, core.frees))
    case Popping(b, c) => (core, Storing(b, c, Read(core.mem, core.frees)))
    case Storing(b, c, link) => (core.(frees := link), Leaving(Alloc, b, Got(c)))
    case Returning(c) => (core.(mem := Write(core.mem, c, core.frees)), Crowning(c))
    case Crowning(c) => (core.(frees := c), Leaving(Dealloc(c), None, Freed))
    case Outside => (core, place)
    case Calling(op) => (core, place)
    case Leaving(op, b, r) => (core, place)
  }

  /** The chunk a call carries with it: taken from its client, or not yet handed to it. */
  function Transit(place: Place): set<int> {
    match place
    case Calling(op) => if op.Dealloc? then {op.chunk} else {}
    case Returning(c) => {c}
    case Crowning(c) => {c}
    case Leaving(op, b, r) => if r.Got? then {r.chunk} else {}
    case _ => {}
  }

  predicate Inside(place: Place) {
    !place.Outside? && !place.Calling? && !place.Leaving?
  }

  /** The free list a growing alloc() is building in a block. */
  ghost predicate Cutting(cfg: Config, core: Core, pool: Pool, base: int) {
    pool.free == [] && Fresh(cfg, |core.mem|, pool, base, cfg.growth)
  }

  /** The list threaded through memory while a thread is at a place, given the pool as last committed. */
  ghost function ListAt(cfg: Config, pool: Pool, place: Place): seq<int>
    requires cfg.words >= 1
  {
    match place
    case Growing => []
    case Linking(base) => []
    case Listing(base) => []
    case Depositing(base, k, raw) => Deposited(base, k, cfg.words, [])
    case Heading(base, k, raw) => Deposited(base, k + 1, cfg.words, [])
    case Taking(b) => Refilled(cfg, pool, b).free
    case Popping(b, c) => Refilled(cfg, pool, b).free
    case Storing(b, c, link) => Refilled(cfg, pool, b).free
    case Crowning(c) => [c] + pool.free
    case _ => pool.free
  }

  /** The chunk that list starts with: m_frees lags behind while a deposit is half done. */
  function HeadAt(core: Core, place: Place): int {
    match place
    case Heading(base, k, raw) => raw
    case Crowning(c) => c
    case _ => core.frees
  }

  ghost predicate Refills(cfg: Config, core: Core, pool: Pool, block: Option<int>)
    requires cfg.words >= 1
  {
    (block.Some? ==> Cutting(cfg, core, pool, block.value)) && Refilled(cfg, pool, block).free != []
  }

  /** What a thread's local variables say at its place. */
  ghost predicate LocalsAt(cfg: Config, core: Core, pool: Pool, place: Place)
    requires cfg.words >= 1
  {
    match place
    case Growing => pool.free == []
    case Linking(base) => Cutting(cfg, core, pool, base)
    case Listing(base) => Cutting(cfg, core, pool, base)
    case Depositing(base, k, raw) =>
      Cutting(cfg, core, pool, base) && k < cfg.growth && raw == ChunkAt(base, k, cfg.words)
    case Heading(base, k, raw) => Cutting(cfg, core, pool, base) && k < cfg.growth && raw == ChunkAt(base, k, cfg.words)
    case Taking(b) => Refills(cfg, core, pool, b)
    case Popping(b, c) => Refills(cfg, core, pool, b) && c == core.frees
    case Storing(b, c, link) =>
      Refills(cfg, core, pool, b) && c == core.frees && link == LinkTo(Refilled(cfg, pool, b).free, 1)
    case Returning(c) => c in pool.live
    case Crowning(c) => c in pool.live
    case _ => true
  }

  ghost predicate RawAt(cfg: Config, core: Core, pool: Pool, place: Place)
    requires cfg.words >= 1
  {
    LocalsAt(cfg, core, pool, place) && Threaded(core.mem, HeadAt(core, place), ListAt(cfg, pool, place))
  }

  /** operator new gives a block clear of all chunks in use, or nothing. */
  ghost predicate Grants(cfg: Config, core: Core, pool: Pool, place: Place, block: Option<int>) {
    place.Growing? && block.Some? ==> Fresh(cfg, |core.mem|, pool, block.value, cfg.growth)
  }

  /** A step that finishes the operation did to memory what the plain stack does, with the same result. */
  ghost predicate Commits(cfg: Config, core: Core, pool: Pool, place: Place)
    requires cfg.words >= 1 && place.Leaving?
  {
    && Legal(cfg, |core.mem|, pool, place.op, place.block)
    && place.r == ResultOf(cfg, pool, place.op, place.block)
    && Threaded(core.mem, core.frees, After(cfg, pool, place.op, place.block).free)
  }

  /** One step took the call on its way to the stack operation, or completed it. */
  ghost predicate Refines(cfg: Config, core: Core, pool: Pool, core': Core, place': Place)
    requires cfg.words >= 1
  {
    && |core'.mem| == |core.mem|
    && if place'.Leaving? then Commits(cfg, core', pool, place') else Inside(place') && RawAt(cfg, core', pool, place')
  }

  lemma CutRefines(cfg: Config, core: Core, pool: Pool, place: Place, block: Option<int>)
    requires Usable(cfg) && RawAt(cfg, core, pool, place) && Grants(cfg, core, pool, place, block)
    requires place.Growing? || place.Linking? || place.Listing? || place.Depositing? || place.Heading?
    ensures var (core', place') := Advance(cfg, core, place, block);
      Refines(cfg, core, pool, core', place')
  {
    match place
    case Depositing(base, k, raw) => DepositAdvances(cfg, core, pool, base, k);
    case Heading(base, k, raw) => HeadAdvances(cfg, core, pool, base, k);
    case _ =>
  }

  lemma PopRefines(cfg: Config, core: Core, pool: Pool, place: Place, block: Option<int>)
    requires Usable(cfg) && RawAt(cfg, core, pool, place)
    requires place.Testing? || place.Taking? || place.Popping? || place.Storing?
    ensures var (core', place') := Advance(cfg, core, place, block);
      Refines(cfg, core, pool, core', place')
  {
    if place.Testing? {
      NullIffEmpty(core.mem, core.frees, pool.free);
    } else {
      PopThreads(core.mem, core.frees, Refilled(cfg, pool, place.block).free);
    }
  }

  lemma PushRefines(cfg: Config, core: Core, pool: Pool, place: Place, block: Option<int>)
    requires Usable(cfg) && Ok(cfg, |core.mem|, pool) && RawAt(cfg, core, pool, place)
    requires place.Returning? || place.Crowning?
    ensures var (core', place') := Advance(cfg, core, place, block);
      Refines(cfg, core, pool, core', place')
  {
    assert place.c in Chunks(pool);
    if place.Returning? {
      PushThreads(core.mem, core.frees, pool.free, place.c);
    }
  }

  /** Every step inside the lock either stays on the way to the stack operation or completes it. */
  lemma AdvanceRefines(cfg: Config, core: Core, pool: Pool, place: Place, block: Option<int>)
    requires Usable(cfg) && Ok(cfg, |core.mem|, pool) && Inside(place)
    requires RawAt(cfg, core, pool, place) && Grants(cfg, core, pool, place, block)
    ensures var (core', place') := Advance(cfg, core, place, block);
      Refines(cfg, core, pool, core', place')
  {
    if place.Returning? || place.Crowning? {
      PushRefines(cfg, core, pool, place, block);
    } else if place.Testing? || place.Taking? || place.Popping? || place.Storing? {
      PopRefines(cfg, core, pool, place, block);
    } else {
      CutRefines(cfg, core, pool, place, block);
    }
  }

  lemma DepositAdvances(cfg: Config, core: Core, pool: Pool, base: int, k: nat)
    requires Usable(cfg) && RawAt(cfg, core, pool, Depositing(base, k, ChunkAt(base, k, cfg.words)))
    ensures var raw := ChunkAt(base, k, cfg.words);
      && 0 < raw < |core.mem|
      && Threaded(core.mem[raw := core.frees], raw, Deposited(base, k + 1, cfg.words, []))
  {
    ChunksApart(base, k, cfg.growth, cfg.words);
    NotDeposited(base, k, cfg.words);
    PushThreads(core.mem, core.frees, Deposited(base, k, cfg.words, []), ChunkAt(base, k, cfg.words));
  }

  lemma {:induction false} NotDeposited(base: int, k: nat, words: nat)
    requires words >= 1
    ensures forall c :: c in Deposited(base, k, words, []) ==> base <= c < ChunkAt(base, k, words)
  {
    if k > 0 {
      NotDeposited(base, k - 1, words);
      ChunksApart(base, k - 1, k, words);
    }
  }

  lemma HeadAdvances(cfg: Config, core: Core, pool: Pool, base: int, k: nat)
    requires Usable(cfg) && RawAt(cfg, core, pool, Heading(base, k, ChunkAt(base, k, cfg.words)))
    ensures ChunkAt(base, k, cfg.words) + cfg.words == ChunkAt(base, k + 1, cfg.words)
    ensures k + 1 >= cfg.growth ==> RawAt(cfg, core.(frees := ChunkAt(base, k, cfg.words)), pool, Taking(Some(base)))
  {
    if k + 1 == cfg.growth {
      assert Refilled(cfg, pool, Some(base)).free == Deposited(base, k + 1, cfg.words, []);
    }
  }

  /** The thread runs through chunks of the pool or of the block being cut. */
  lemma ListStays(cfg: Config, core: Core, pool: Pool, place: Place, d: int)
    requires Usable(cfg) && LocalsAt(cfg, core, pool, place) && d in ListAt(cfg, pool, place)
    ensures d in pool.free || d in Transit(place)
         || exists base :: Cutting(cfg, core, pool, base) && base <= d < ChunkAt(base, cfg.growth, cfg.words)
  {
    if d !in pool.free && d !in Transit(place) {
      if place.Depositing? || place.Heading? {
        var k := if place.Depositing? then place.k else place.k + 1;
        NotDeposited(place.base, k, cfg.words);
        if k < cfg.growth { ChunksApart(place.base, k, cfg.growth, cfg.words); }
      } else if place.Taking? || place.Popping? || place.Storing? {
        NotDeposited(place.block.value, cfg.growth, cfg.words);
      }
    }
  }

  /** No word of a chunk a client holds lies on the thread. */
  lemma ClientWordsOffList(cfg: Config, core: Core, pool: Pool, place: Place, c: int, i: int, d: int)
    requires Usable(cfg) && Ok(cfg, |core.mem|, pool) && LocalsAt(cfg, core, pool, place)
    requires c in pool.live && c !in Transit(place) && c <= i < c + cfg.words
    requires d in ListAt(cfg, pool, place)
    ensures d != i
  {
    assert c in Chunks(pool);
    ListStays(cfg, core, pool, place, d);
    if d in pool.free {
      assert d in Chunks(pool);
    } else if d in Transit(place) {
      assert place.Crowning?;
      assert d in Chunks(pool);
    }
  }

  /** A client writing to a chunk it holds cannot be seen by a call in progress. */
  lemma ClientWriteUnseen(cfg: Config, core: Core, pool: Pool, place: Place, c: int, i: int, v: int)
    requires Usable(cfg) && Ok(cfg, |core.mem|, pool) && RawAt(cfg, core, pool, place)
    requires c in pool.live && c !in Transit(place) && c <= i < c + cfg.words
    ensures RawAt(cfg, core.(mem := Write(core.mem, i, v)), pool, place)
  {
    forall d | d in ListAt(cfg, pool, place) ensures d != i {
      ClientWordsOffList(cfg, core, pool, place, c, i, d);
    }
    FrameThreads(core.mem, Write(core.mem, i, v), HeadAt(core, place), ListAt(cfg, pool, place));
  }

  /** The one word a step inside the lock may write. */
  function WrittenAt(place: Place): int {
    match place
    case Linking(base) => base
    case Depositing(base, k, raw) => raw
    case Returning(c) => c
    case _ => -1
  }

  lemma OneWordWritten(cfg: Config, core: Core, place: Place, block: Option<int>)
    ensures var mem' := Advance(cfg, core, place, block).0.mem;
      |mem'| == |core.mem| && forall i :: 0 <= i < |mem'| && i != WrittenAt(place) ==> mem'[i] == core.mem[i]
  {
  }

  lemma WrittenClearOfClients(cfg: Config, core: Core, pool: Pool, place: Place, c: int)
    requires Usable(cfg) && Ok(cfg, |core.mem|, pool) && LocalsAt(cfg, core, pool, place)
    requires c in pool.live && c !in Transit(place)
    ensures !(c <= WrittenAt(place) < c + cfg.words)
  {
    assert c in Chunks(pool);
    match place
    case Linking(base) => ChunksApart(base, 0, cfg.growth, cfg.words);
    case Depositing(base, k, raw) => ChunksApart(base, k, cfg.growth, cfg.words);
    case Returning(d) => assert d in Chunks(pool);
    case _ =>
  }

  /** A call in progress writes to no chunk a client holds. */
  lemma AdvanceKeepsData(cfg: Config, core: Core, pool: Pool, place: Place, block: Option<int>)
    requires Usable(cfg) && Ok(cfg, |core.mem|, pool) && RawAt(cfg, core, pool, place)
    ensures SameData(core.mem, Advance(cfg, core, place, block).0.mem, pool.live - Transit(place), cfg.words)
  {
    OneWordWritten(cfg, core, place, block);
    forall c | c in pool.live - Transit(place) ensures !(c <= WrittenAt(place) < c + cfg.words) {
      WrittenClearOfClients(cfg, core, pool, place, c);
    }
    var mem' := Advance(cfg, core, place, block).0.mem;
    OneWordKeepsData(core.mem, mem', pool.live - Transit(place), cfg.words, WrittenAt(place));
  }
}
