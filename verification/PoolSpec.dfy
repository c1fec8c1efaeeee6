/**
 * What the memory pool is for, without its representation: a stack of free chunks, the set of
 * chunks clients hold, and how many chunks have been cut in all.
 */
module PoolSpec {
  import opened Sequences
  import opened Wrappers

  /** ChunkCount, the chunk stride in words of 8 bytes (the default alignment), and the chunks cut on demand. */
  datatype Config = Config(chunkCount: nat, words: nat, growth: nat)

  predicate Usable(cfg: Config) {
    cfg.chunkCount >= 1 && cfg.words >= 1 && cfg.growth >= 1
  }

  /** What the template parameters make of a pool; a stride is 1 to 128 words, 8 to 1024 bytes. */
  function PoolConfig(chunkCount: nat, words: nat): Config
    requires chunkCount >= 1 && 1 <= words <= 128
  {
    Config(chunkCount, words, GrowthCount(chunkCount, words))
  }

  datatype Pool = Pool(free: seq<int>, live: set<int>, total: nat)

  datatype Op = Alloc | Dealloc(chunk: int)
  datatype Result = Got(chunk: int) | BadAlloc | Freed

  function ToSet(s: seq<int>): set<int> { set c | c in s }

  function Chunks(p: Pool): set<int> { ToSet(p.free) + p.live }

  /** Chunks on demand: ChunkCount, or as many as fit in 4096 bytes if that is fewer. */
  function GrowthCount(chunkCount: nat, words: nat): nat
    requires words >= 1
  {
    if 8 * words * chunkCount > 4096 then 4096 / (8 * words) else chunkCount
  }

  /** The k-th chunk of a block, as grow() walks it. */
  function ChunkAt(base: int, k: nat, words: nat): int {
    if k == 0 then base else ChunkAt(base, k - 1, words) + words
  }

  /** A block of count chunks is count * words long. */
  lemma {:induction false} ChunkAtIs(base: int, k: nat, words: nat)
    ensures ChunkAt(base, k, words) == base + k * words
  {
    if k > 0 {
      ChunkAtIs(base, k - 1, words);
    }
  }

  /** The free list after depositing the count chunks of a block in increasing order. */
  function Deposited(base: int, count: nat, words: nat, free: seq<int>): seq<int> {
    if count == 0 then free else [ChunkAt(base, count - 1, words)] + Deposited(base, count - 1, words, free)
  }

  function Grown(cfg: Config, p: Pool, base: int, count: nat): Pool {
    p.(free := Deposited(base, count, cfg.words, p.free), total := p.total + count)
  }

  /** alloc() first refills an empty free list; block is what operator new gives if it is asked. */
  function Refilled(cfg: Config, p: Pool, block: Option<int>): Pool
    requires cfg.words >= 1
  {
    if p.free != [] || block.None? then p else Grown(cfg, p, block.value, cfg.growth)
  }

  function Popped(p: Pool): Pool
    requires p.free != []
  {
    p.(free := p.free[1..], live := p.live + {p.free[0]})
  }

  /** The pool after one operation. */
  function After(cfg: Config, p: Pool, op: Op, block: Option<int>): Pool
    requires cfg.words >= 1
  {
    match op
    case Dealloc(c) => p.(free := [c] + p.free, live := p.live - {c})
    case Alloc =>
      var q := Refilled(cfg, p, block);
      if q.free == [] then q else Popped(q)
  }

  /** What the operation returns to its caller. */
  function ResultOf(cfg: Config, p: Pool, op: Op, block: Option<int>): Result
    requires cfg.words >= 1
  {
    match op
    case Dealloc(c) => Freed
    case Alloc =>
      var q := Refilled(cfg, p, block);
      if q.free == [] then BadAlloc else Got(q.free[0])
  }

  /** On-demand blocks hold as many chunks as ChunkCount and 4096 bytes allow, and at least one. */
  lemma GrowthIsSmall(chunkCount: nat, words: nat)
    requires chunkCount >= 1 && 1 <= words <= 128
    ensures Usable(PoolConfig(chunkCount, words))
    ensures 1 <= GrowthCount(chunkCount, words) <= chunkCount
    ensures forall k: nat :: k <= chunkCount && 8 * words * k <= 4096 ==> k <= GrowthCount(chunkCount, words)
    ensures 8 * words * GrowthCount(chunkCount, words) <= 4096
  {
    if 8 * words * chunkCount > 4096 {
      QuotientBounds(4096, 8 * words, chunkCount);
      forall k: nat | 8 * words * k <= 4096 ensures k <= 4096 / (8 * words) {
        QuotientIsLargest(4096, 8 * words, k);
      }
    }
  }

  lemma SmallerFactor(d: nat, a: int, b: int)
    requires d * a < d * b
    ensures a < b
  {
    assert d * b - d * a == d * (b - a);
  }

  lemma QuotientIsLargest(bytes: nat, stride: nat, k: nat)
    requires stride >= 1 && stride * k <= bytes
    ensures k <= bytes / stride
  {
    var q := bytes / stride;
    assert bytes == stride * q + bytes % stride;
    if k > q { assert stride * k == stride * q + stride * (k - q); SmallerFactor(stride, k, q + 1); }
  }

  lemma QuotientBounds(bytes: nat, stride: nat, count: nat)
    requires 1 <= stride <= bytes < stride * count
    ensures 1 <= bytes / stride <= count && stride * (bytes / stride) <= bytes
  {
    var q := bytes / stride;
    assert bytes == stride * q + bytes % stride;
    SmallerFactor(stride, q, count);
  }

  /** A block of count chunks that operator new may give: inside memory, clear of every chunk. */
  ghost predicate Fresh(cfg: Config, size: nat, p: Pool, base: int, count: nat) {
    && 1 <= base && ChunkAt(base, count, cfg.words) <= size
    && forall c :: c in Chunks(p) ==> c + cfg.words <= base || ChunkAt(base, count, cfg.words) <= c
  }

  /** Chunks lie inside memory, away from the null address, and never overlap. */
  ghost predicate Laid(cfg: Config, size: nat, chunks: set<int>) {
    && (forall c :: c in chunks ==> 1 <= c && c + cfg.words <= size)
    && forall c, d :: c in chunks && d in chunks && c != d ==> c + cfg.words <= d || d + cfg.words <= c
  }

  ghost predicate Ok(cfg: Config, size: nat, p: Pool) {
    && Distinct(p.free)
    && (forall c :: c in p.free ==> c !in p.live)
    && Laid(cfg, size, Chunks(p))
    && |p.free| + |p.live| == p.total
  }

  /** What an operation demands: dealloc a live chunk; a block, if one is needed, from operator new. */
  ghost predicate Legal(cfg: Config, size: nat, p: Pool, op: Op, block: Option<int>)
    requires cfg.words >= 1
  {
    match op
    case Dealloc(c) => c in p.live
    case Alloc => p.free == [] && block.Some? ==> Fresh(cfg, size, p, block.value, cfg.growth)
  }

  lemma {:induction false} DepositedIs(base: int, count: nat, words: nat, free: seq<int>)
    ensures var s := Deposited(base, count, words, free);
      && |s| == count + |free|
      && s[count..] == free
      && forall i :: 0 <= i < count ==> s[i] == ChunkAt(base, count - 1 - i, words)
  {
    if count > 0 {
      DepositedIs(base, count - 1, words, free);
    }
  }

  /** Chunks of one block follow each other without overlap and stay inside the block. */
  lemma {:induction false} ChunksApart(base: int, i: nat, j: nat, words: nat)
    requires i < j
    ensures base <= ChunkAt(base, i, words) && ChunkAt(base, i, words) + words <= ChunkAt(base, j, words)
  {
    if i + 1 < j {
      ChunksApart(base, i, j - 1, words);
    } else if i > 0 {
      ChunksApart(base, 0, i, words);
    }
  }

  ghost predicate InBlock(c: int, base: int, count: nat, words: nat) {
    exists k: nat :: k < count && c == ChunkAt(base, k, words)
  }

  /** The chunks of a new block are laid out without overlap, and clear of the older ones. */
  lemma GrownIsLaid(cfg: Config, size: nat, p: Pool, base: int, count: nat)
    requires cfg.words >= 1 && Laid(cfg, size, Chunks(p)) && Fresh(cfg, size, p, base, count)
    ensures Laid(cfg, size, Chunks(Grown(cfg, p, base, count)))
  {
    var q := Grown(cfg, p, base, count);
    forall c | c in Chunks(q)
      ensures c in Chunks(p) || InBlock(c, base, count, cfg.words)
      ensures 1 <= c && c + cfg.words <= size
    {
      GrownChunkIs(cfg, p, base, count, c);
      if c !in Chunks(p) {
        var k: nat :| k < count && c == ChunkAt(base, k, cfg.words);
        ChunksApart(base, k, count, cfg.words);
      }
    }
    forall c, d | c in Chunks(q) && d in Chunks(q) && c != d
      ensures c + cfg.words <= d || d + cfg.words <= c
    {
      GrownChunksApart(cfg, size, p, base, count, c, d);
    }
  }

  lemma GrownChunkIs(cfg: Config, p: Pool, base: int, count: nat, c: int)
    requires c in Chunks(Grown(cfg, p, base, count))
    ensures c in Chunks(p) || InBlock(c, base, count, cfg.words)
  {
    DepositedIs(base, count, cfg.words, p.free);
    var s := Deposited(base, count, cfg.words, p.free);
    if c !in p.live {
      var i: nat :| i < |s| && s[i] == c;
      if i < count {
        assert c == ChunkAt(base, count - 1 - i, cfg.words);
      } else {
        assert c == s[count..][i - count];
      }
    }
  }

  lemma GrownChunksApart(cfg: Config, size: nat, p: Pool, base: int, count: nat, c: int, d: int)
    requires cfg.words >= 1 && Laid(cfg, size, Chunks(p)) && Fresh(cfg, size, p, base, count)
    requires c in Chunks(p) || InBlock(c, base, count, cfg.words)
    requires d in Chunks(p) || InBlock(d, base, count, cfg.words)
    requires c != d
    ensures c + cfg.words <= d || d + cfg.words <= c
  {
    if c in Chunks(p) {
      if d !in Chunks(p) {
        var k: nat :| k < count && d == ChunkAt(base, k, cfg.words);
        ChunksApart(base, k, count, cfg.words);
      }
    } else {
      var k: nat :| k < count && c == ChunkAt(base, k, cfg.words);
      ChunksApart(base, k, count, cfg.words);
      if d !in Chunks(p) {
        var l: nat :| l < count && d == ChunkAt(base, l, cfg.words);
        if k < l { ChunksApart(base, k, l, cfg.words); }
        if l < k { ChunksApart(base, l, k, cfg.words); }
      }
    }
  }

  /** What a deposit adds is neither free nor live yet, and is added once. */
  lemma DepositIsNew(cfg: Config, size: nat, p: Pool, base: int, count: nat, i: nat)
    requires cfg.words >= 1 && Fresh(cfg, size, p, base, count) && i < count
    ensures ChunkAt(base, i, cfg.words) !in Chunks(p)
    ensures forall j: nat :: j < count && j != i ==> ChunkAt(base, i, cfg.words) != ChunkAt(base, j, cfg.words)
  {
    ChunksApart(base, i, count, cfg.words);
    forall j: nat | j < count && j != i ensures ChunkAt(base, i, cfg.words) != ChunkAt(base, j, cfg.words) {
      if i < j { ChunksApart(base, i, j, cfg.words); } else { ChunksApart(base, j, i, cfg.words); }
    }
  }

  lemma {:induction false} DepositedIsNew(cfg: Config, size: nat, p: Pool, base: int, count: nat, k: nat)
    requires cfg.words >= 1 && Distinct(p.free) && (forall c :: c in p.free ==> c !in p.live)
    requires Fresh(cfg, size, p, base, count) && k <= count
    ensures var s := Deposited(base, k, cfg.words, p.free);
      && Distinct(s)
      && (forall c :: c in s ==> c !in p.live)
      && (forall c :: c in s ==> c in p.free || InBlock(c, base, k, cfg.words))
  {
    if k > 0 {
      DepositedIsNew(cfg, size, p, base, count, k - 1);
      DepositIsNew(cfg, size, p, base, count, k - 1);
      var rest := Deposited(base, k - 1, cfg.words, p.free);
      var c := ChunkAt(base, k - 1, cfg.words);
      assert Deposited(base, k, cfg.words, p.free) == [c] + rest;
      assert c !in p.free && !InBlock(c, base, k - 1, cfg.words);
      DistinctCons(c, rest);
      forall d | d in [c] + rest ensures d in p.free || InBlock(d, base, k, cfg.words) {
        if d != c {
          assert d in rest;
          if d !in p.free {
            var l: nat :| l < k - 1 && d == ChunkAt(base, l, cfg.words);
            assert InBlock(d, base, k, cfg.words);
          }
        }
      }
    }
  }

  lemma DistinctCons(c: int, s: seq<int>)
    requires Distinct(s) && c !in s
    ensures Distinct([c] + s)
  {
  }

  lemma GrownKeepsOk(cfg: Config, size: nat, p: Pool, base: int, count: nat)
    requires cfg.words >= 1 && Ok(cfg, size, p) && Fresh(cfg, size, p, base, count)
    ensures Ok(cfg, size, Grown(cfg, p, base, count))
  {
    GrownIsLaid(cfg, size, p, base, count);
    DepositedIs(base, count, cfg.words, p.free);
    DepositedIsNew(cfg, size, p, base, count, count);
  }

  lemma PopKeepsChunks(p: Pool)
    requires p.free != []
    ensures Chunks(Popped(p)) == Chunks(p)
  {
    assert p.free == [p.free[0]] + p.free[1..];
  }

  lemma PopKeepsOk(cfg: Config, size: nat, p: Pool)
    requires Ok(cfg, size, p) && p.free != []
    ensures Ok(cfg, size, Popped(p))
  {
    var q := Popped(p);
    var top := p.free[0];
    assert top in p.free;
    assert top !in p.live;
    forall c | c in q.free ensures c !in q.live {
      var i :| 0 <= i < |q.free| && q.free[i] == c;
      assert p.free[i + 1] == c && p.free[0] != c;
    }
    TailIsDistinct(p.free);
    PopKeepsChunks(p);
  }

  lemma TailIsDistinct(s: seq<int>)
    requires s != [] && Distinct(s)
    ensures Distinct(s[1..])
  {
  }

  lemma PushKeepsOk(cfg: Config, size: nat, p: Pool, c: int)
    requires Ok(cfg, size, p) && c in p.live
    ensures Ok(cfg, size, p.(free := [c] + p.free, live := p.live - {c}))
  {
    var q := p.(free := [c] + p.free, live := p.live - {c});
    assert forall d :: d in q.free ==> d == c || d in p.free;
    assert Chunks(q) == Chunks(p);
  }

  /** Every legal operation keeps the pool well formed. */
  lemma AfterKeepsOk(cfg: Config, size: nat, p: Pool, op: Op, block: Option<int>)
    requires Usable(cfg) && Ok(cfg, size, p) && Legal(cfg, size, p, op, block)
    ensures Ok(cfg, size, After(cfg, p, op, block))
  {
    match op
    case Dealloc(c) => PushKeepsOk(cfg, size, p, c);
    case Alloc =>
      var q := Refilled(cfg, p, block);
      if p.free == [] && block.Some? {
        GrownKeepsOk(cfg, size, p, block.value, cfg.growth);
      }
      if q.free != [] { PopKeepsOk(cfg, size, q); }
  }

  /** One operation in a serial history: who asked, what for, the block it got, and the result. */
  datatype Event = Event(client: nat, op: Op, block: Option<int>, result: Result)

  /** The pool as its constructor leaves it. */
  function Initial(cfg: Config, base: int): Pool {
    Grown(cfg, Pool([], {}, 0), base, cfg.chunkCount)
  }

  function Replay(cfg: Config, p: Pool, log: seq<Event>): Pool
    requires cfg.words >= 1
  {
    if log == [] then p
    else
      var e := log[|log| - 1];
      After(cfg, Replay(cfg, p, log[..|log| - 1]), e.op, e.block)
  }

  /** Each operation is legal where it stands, and returned what a serial pool returns there. */
  ghost predicate SerialHistory(cfg: Config, size: nat, p: Pool, log: seq<Event>)
    requires cfg.words >= 1
  {
    log == [] ||
    var e, q := log[|log| - 1], Replay(cfg, p, log[..|log| - 1]);
    && SerialHistory(cfg, size, p, log[..|log| - 1])
    && Legal(cfg, size, q, e.op, e.block)
    && e.result == ResultOf(cfg, q, e.op, e.block)
  }

  lemma {:induction false} HistoryKeepsOk(cfg: Config, size: nat, p: Pool, log: seq<Event>)
    requires Usable(cfg) && Ok(cfg, size, p) && SerialHistory(cfg, size, p, log)
    ensures Ok(cfg, size, Replay(cfg, p, log))
  {
    if log != [] {
      var e := log[|log| - 1];
      HistoryKeepsOk(cfg, size, p, log[..|log| - 1]);
      AfterKeepsOk(cfg, size, Replay(cfg, p, log[..|log| - 1]), e.op, e.block);
    }
  }

  function Max(a: nat, b: nat): nat { if a < b then b else a }

  /** At no point of the history are more than peak chunks held. */
  ghost predicate NeverAbove(cfg: Config, p: Pool, log: seq<Event>, peak: nat)
    requires cfg.words >= 1
  {
    forall k :: 0 <= k <= |log| ==> |Replay(cfg, p, log[..k]).live| <= peak
  }

  lemma LastEventGrowth(cfg: Config, size: nat, p: Pool, log: seq<Event>)
    requires Usable(cfg) && Ok(cfg, size, p) && SerialHistory(cfg, size, p, log) && log != []
    ensures var q, q' := Replay(cfg, p, log[..|log| - 1]), Replay(cfg, p, log);
      q'.total == q.total || q'.total == |q'.live| - 1 + cfg.growth
  {
    var e, q := log[|log| - 1], Replay(cfg, p, log[..|log| - 1]);
    HistoryKeepsOk(cfg, size, p, log[..|log| - 1]);
    OperationGrowth(cfg, size, q, e.op, e.block);
  }

  lemma {:induction false} FootprintFrom(cfg: Config, size: nat, p: Pool, log: seq<Event>, peak: nat)
    requires Usable(cfg) && Ok(cfg, size, p) && SerialHistory(cfg, size, p, log)
    requires NeverAbove(cfg, p, log, peak)
    ensures Replay(cfg, p, log).total <= Max(p.total, peak + cfg.growth - 1)
  {
    if log != [] {
      var earlier := log[..|log| - 1];
      forall k | 0 <= k <= |earlier| ensures |Replay(cfg, p, earlier[..k]).live| <= peak {
        assert earlier[..k] == log[..k];
      }
      FootprintFrom(cfg, size, p, earlier, peak);
      LastEventGrowth(cfg, size, p, log);
      assert log[..|log|] == log;
    }
  }

  /**
   * Footprint: the pool never cuts more chunks than ChunkCount, or the peak demand plus one
   * growth less one chunk, because a growth needs all chunks to be held.
   */
  lemma Footprint(chunkCount: nat, words: nat, size: nat, base: int, log: seq<Event>, peak: nat)
    requires chunkCount >= 1 && 1 <= words <= 128
    requires var cfg := PoolConfig(chunkCount, words);
      && Fresh(cfg, size, Pool([], {}, 0), base, chunkCount)
      && SerialHistory(cfg, size, Initial(cfg, base), log)
      && NeverAbove(cfg, Initial(cfg, base), log, peak)
    ensures var cfg := PoolConfig(chunkCount, words);
      Replay(cfg, Initial(cfg, base), log).total <= Max(chunkCount, peak + GrowthCount(chunkCount, words) - 1)
  {
    GrowthIsSmall(chunkCount, words);
    var cfg := PoolConfig(chunkCount, words);
    InitialIsOk(cfg, size, base);
    DepositedIs(base, chunkCount, words, []);
    FootprintFrom(cfg, size, Initial(cfg, base), log, peak);
  }

  /** An operation cuts no new chunk, or cuts one growth's worth when all chunks are held and hands one out. */
  lemma OperationGrowth(cfg: Config, size: nat, p: Pool, op: Op, block: Option<int>)
    requires Usable(cfg) && Ok(cfg, size, p) && Legal(cfg, size, p, op, block)
    ensures var q := After(cfg, p, op, block);
      || q.total == p.total
      || (q.total == p.total + cfg.growth && |p.live| == p.total && |q.live| == p.total + 1)
  {
    if op.Alloc? && p.free == [] && block.Some? {
      DepositedIs(block.value, cfg.growth, cfg.words, p.free);
      var g := Refilled(cfg, p, block);
      GrownKeepsOk(cfg, size, p, block.value, cfg.growth);
      assert g.free[0] in g.free;
    }
  }

  lemma InitialIsOk(cfg: Config, size: nat, base: int)
    requires Usable(cfg) && Fresh(cfg, size, Pool([], {}, 0), base, cfg.chunkCount)
    ensures Ok(cfg, size, Initial(cfg, base))
  {
    GrownKeepsOk(cfg, size, Pool([], {}, 0), base, cfg.chunkCount);
  }
}
