/** The free list threaded through the first word of each free chunk. */
module FreeList {

  /** The address a link must hold when the list goes on at position i; 0 is the null pointer. */
  function LinkTo(list: seq<int>, i: nat): int {
    if i < |list| then list[i] else 0
  }

  ghost predicate Threaded(mem: seq<int>, head: int, list: seq<int>) {
    && head == LinkTo(list, 0)
    && forall i :: 0 <= i < |list| ==> 0 < list[i] < |mem| && mem[list[i]] == LinkTo(list, i + 1)
  }

  lemma NullIffEmpty(mem: seq<int>, head: int, list: seq<int>)
    requires Threaded(mem, head, list)
    ensures head == 0 <==> list == []
  {
  }

  lemma PushThreads(mem: seq<int>, head: int, list: seq<int>, c: int)
    requires Threaded(mem, head, list) && 0 < c < |mem| && c !in list
    ensures Threaded(mem[c := head], c, [c] + list)
  {
    var l := [c] + list;
    forall i | 0 <= i < |l| ensures 0 < l[i] < |mem| && mem[c := head][l[i]] == LinkTo(l, i + 1) {
      if i > 0 {
        assert l[i] == list[i - 1] && list[i - 1] in list;
      }
    }
  }

  lemma PopThreads(mem: seq<int>, head: int, list: seq<int>)
    requires Threaded(mem, head, list) && list != []
    ensures head == list[0] && 0 < head < |mem| && Threaded(mem, mem[head], list[1..])
  {
    var l := list[1..];
    forall i | 0 <= i < |l| ensures 0 < l[i] < |mem| && mem[l[i]] == LinkTo(l, i + 1) {
      assert l[i] == list[i + 1];
    }
  }

  /** Writes that miss every chunk of the list leave the list as it is. */
  lemma FrameThreads(mem: seq<int>, mem': seq<int>, head: int, list: seq<int>)
    requires Threaded(mem, head, list) && |mem'| == |mem|
    requires forall c :: c in list && 0 <= c < |mem| ==> mem'[c] == mem[c]
    ensures Threaded(mem', head, list)
  {
    forall i | 0 <= i < |list| ensures mem'[list[i]] == LinkTo(list, i + 1) {
      assert list[i] in list;
    }
  }

  /** Memory and head pointer determine the list: the thread has no fork and no cycle. */
  lemma {:induction false} ThreadIsUnique(mem: seq<int>, head: int, list: seq<int>, other: seq<int>)
    requires Threaded(mem, head, list) && Threaded(mem, head, other)
    ensures list == other
    decreases |list|
  {
    if list != [] {
      assert other != [];
      PopThreads(mem, head, list);
      PopThreads(mem, head, other);
      ThreadIsUnique(mem, mem[head], list[1..], other[1..]);
      assert list == [head] + list[1..] && other == [head] + other[1..];
    } else {
      assert LinkTo(other, 0) == 0;
    }
  }

  /** Only words from base up to end may differ. */
  ghost predicate SameOutside(mem: seq<int>, mem': seq<int>, base: int, end: int) {
    && |mem| == |mem'|
    && forall i :: 0 <= i < |mem| && !(base <= i < end) ==> mem[i] == mem'[i]
  }

  /** The words of every chunk in the set are untouched. */
  ghost predicate SameData(mem: seq<int>, mem': seq<int>, chunks: set<int>, words: nat) {
    && |mem| == |mem'|
    && forall c :: c in chunks && 0 <= c && c + words <= |mem| ==> mem[c..c + words] == mem'[c..c + words]
  }

  /** A write to one word changes no chunk that the word is not in. */
  lemma OneWordKeepsData(mem: seq<int>, mem': seq<int>, chunks: set<int>, words: nat, w: int)
    requires |mem'| == |mem| && forall i :: 0 <= i < |mem'| && i != w ==> mem'[i] == mem[i]
    requires forall c :: c in chunks ==> !(c <= w < c + words)
    ensures SameData(mem, mem', chunks, words)
  {
  }
}

/** The memory pool, over a word array that its clients write to as they please. */
module MemPools {
  import opened PoolSpec
  import opened Wrappers
  import opened FreeList

  class MemPool {
    const chunkCount: nat
    const words: nat
    const mem: array<int>
    var allocs: int
    var frees: int
    ghost var pool: Pool

    ghost predicate Shape()
    {
      chunkCount >= 1 && 1 <= words <= 128
    }

    ghost function Cfg(): Config
      requires Shape()
    {
      PoolConfig(chunkCount, words)
    }

    ghost predicate Valid()
      reads this, mem
    {
      && Shape()
      && Ok(Cfg(), mem.Length, pool)
      && Threaded(mem[..], frees, pool.free)
    }

    /** deposit(): link the chunk in front of the free list. */
    method Deposit(c: int, ghost list: seq<int>)
      requires 0 < c < mem.Length && c !in list && Threaded(mem[..], frees, list)
      modifies this`frees, mem
      ensures mem[..] == old(mem[..])[c := old(frees)] && frees == c
      ensures Threaded(mem[..], frees, [c] + list)
    {
      PushThreads(mem[..], frees, list, c);
      mem[c] := frees;
      frees := c;
    }

    /** The head of grow(): the block's first word takes the link to the previous block. */
    method LinkBlock(base: int, ghost free: seq<int>)
      requires 1 <= base < mem.Length && base !in free && Threaded(mem[..], frees, free)
      modifies this`allocs, mem
      ensures Threaded(mem[..], frees, free) && allocs == base
      ensures mem[..] == old(mem[..])[base := old(allocs)]
    {
      mem[base] := allocs;
      allocs := base;
      FrameThreads(old(mem[..]), mem[..], frees, free);
    }

    /** grow(): link the block, then deposit its chunks one after the other. */
    method Grow(base: int, count: nat, ghost free: seq<int>, ghost end: int)
      requires words >= 1 && count >= 1 && 1 <= base && end == ChunkAt(base, count, words) <= mem.Length
      requires forall c :: c in free ==> c + words <= base || end <= c
      requires Threaded(mem[..], frees, free)
      modifies this`allocs, this`frees, mem
      ensures Threaded(mem[..], frees, Deposited(base, count, words, free)) && allocs == base
      ensures end == base + count * words
      ensures SameOutside(old(mem[..]), mem[..], base, end)
    {
      ChunkAtIs(base, count, words);
      NotYetDeposited(base, 0, count, words, free);
      LinkBlock(base, free);
      var raw := base;
      for k := 0 to count
        invariant raw == ChunkAt(base, k, words) && allocs == base
        invariant Threaded(mem[..], frees, Deposited(base, k, words, free))
        invariant SameOutside(old(mem[..]), mem[..], base, end)
      {
        ghost var list := Deposited(base, k, words, free);
        NotYetDeposited(base, k, count, words, free);
        Deposit(raw, list);
        raw := raw + words;
      }
    }

    /** The constructor cuts ChunkCount chunks out of the first block operator new gives. */
    constructor (chunkCount: nat, words: nat, mem: array<int>, base: int)
      requires chunkCount >= 1 && 1 <= words <= 128
      requires Fresh(PoolConfig(chunkCount, words), mem.Length, Pool([], {}, 0), base, chunkCount)
      modifies mem
      ensures Valid() && this.chunkCount == chunkCount && this.words == words && this.mem == mem
      ensures pool == Initial(Cfg(), base)
    {
      this.chunkCount, this.words, this.mem := chunkCount, words, mem;
      allocs, frees := 0, 0;
      new;
      Grow(base, chunkCount, [], ChunkAt(base, chunkCount, words));
      GrowthIsSmall(chunkCount, words);
      pool := Initial(Cfg(), base);
      InitialIsOk(Cfg(), mem.Length, base);
    }

    /** The first half of alloc(): with nothing free, cut a block of the on-demand size. */
    method GrowOnDemand(base: int)
      requires Valid() && pool.free == [] && Fresh(Cfg(), mem.Length, pool, base, Cfg().growth)
      modifies this, mem
      ensures Valid() && pool == Refilled(Cfg(), old(pool), Some(base)) && pool.free != []
      ensures SameData(old(mem[..]), mem[..], old(pool.live), words)
    {
      ghost var cfg := Cfg();
      GrowthIsSmall(chunkCount, words);
      GrownKeepsOk(cfg, mem.Length, pool, base, cfg.growth);
      var count := chunkCount;
      if 8 * words * chunkCount > 4096 {
        count := 4096 / (8 * words);
      }
      Grow(base, count, pool.free, ChunkAt(base, count, words));
      DepositedIs(base, count, words, pool.free);
      LiveDataKept(cfg, old(mem[..]), mem[..], pool, base, count);
      pool := Refilled(cfg, pool, Some(base));
    }

    /**
     * alloc() does what a plain stack does: it pops, after growing the stack by one block if it
     * is empty.  operator new gives that block, or throws and leaves the pool as it was.  What
     * clients keep in their chunks is not touched.
     */
    method Alloc(block: Option<int>) returns (r: Result)
      requires Valid() && Legal(Cfg(), mem.Length, pool, PoolSpec.Alloc, block)
      modifies this, mem
      ensures Valid()
      ensures pool == After(Cfg(), old(pool), PoolSpec.Alloc, block)
      ensures r == ResultOf(Cfg(), old(pool), PoolSpec.Alloc, block)
      ensures SameData(old(mem[..]), mem[..], old(pool.live), words)
    {
      NullIffEmpty(mem[..], frees, pool.free);
      if frees == 0 {
        if block.None? { return BadAlloc; }
        GrowOnDemand(block.value);
      }
      PopThreads(mem[..], frees, pool.free);
      PopKeepsOk(Cfg(), mem.Length, pool);
      r := Got(frees);
      frees := mem[frees];
      pool := pool.(free := pool.free[1..], live := pool.live + {pool.free[0]});
    }

    /** dealloc() of a chunk some client holds pushes it back; its client's data is gone, others' is not. */
    method Dealloc(c: int)
      requires Valid() && c in pool.live
      modifies this, mem
      ensures Valid()
      ensures pool == After(Cfg(), old(pool), PoolSpec.Dealloc(c), None)
      ensures SameData(old(mem[..]), mem[..], pool.live, words)
    {
      PushKeepsOk(Cfg(), mem.Length, pool, c);
      assert c in Chunks(pool);
      OneChunkKept(Cfg(), mem[..], pool, c, 0, frees);
      Deposit(c, pool.free);
      pool := After(Cfg(), pool, PoolSpec.Dealloc(c), None);
    }

    /** A client may write any word of a chunk it holds; the free list does not change. */
    method ClientWrite(c: int, k: nat, v: int)
      requires Valid() && c in pool.live && k < words && c + k < mem.Length
      modifies mem
      ensures Valid() && mem[..] == old(mem[..])[c + k := v]
      ensures SameData(old(mem[..]), mem[..], pool.live - {c}, words)
    {
      assert c in Chunks(pool);
      OneChunkKept(Cfg(), mem[..], pool, c, k, v);
      ClientWriteKeepsList(Cfg(), mem[..], pool, frees, c, k, v);
      mem[c + k] := v;
    }
  }

  /** What a growth writes lies in the new block, clear of every live chunk. */
  lemma LiveDataKept(cfg: Config, mem: seq<int>, mem': seq<int>, p: Pool, base: int, count: nat)
    requires cfg.words >= 1 && Fresh(cfg, |mem|, p, base, count)
    requires SameOutside(mem, mem', base, ChunkAt(base, count, cfg.words))
    ensures SameData(mem, mem', p.live, cfg.words)
  {
    forall c | c in p.live && 0 <= c && c + cfg.words <= |mem|
      ensures mem[c..c + cfg.words] == mem'[c..c + cfg.words]
    {
      assert c in Chunks(p);
    }
  }

  /** No other chunk, live or free, contains a word of chunk c. */
  lemma ChunkWordsApart(cfg: Config, size: nat, p: Pool, c: int, k: nat)
    requires cfg.words >= 1 && Ok(cfg, size, p) && c in Chunks(p) && k < cfg.words
    ensures forall d :: d in Chunks(p) && d != c ==> !(d <= c + k < d + cfg.words)
  {
  }

  /** A write to one chunk does not reach another. */
  lemma OneChunkKept(cfg: Config, mem: seq<int>, p: Pool, c: int, k: nat, v: int)
    requires cfg.words >= 1 && Ok(cfg, |mem|, p) && c in Chunks(p) && k < cfg.words
    ensures 0 < c && c + k < |mem|
    ensures SameData(mem, mem[c + k := v], p.live - {c}, cfg.words)
  {
    ChunkWordsApart(cfg, |mem|, p, c, k);
    forall d | d in p.live - {c} ensures !(d <= c + k < d + cfg.words) {
      assert d in Chunks(p);
    }
    OneWordKeepsData(mem, mem[c + k := v], p.live - {c}, cfg.words, c + k);
  }

  /** A client's write to a live chunk leaves the free list as it is. */
  lemma ClientWriteKeepsList(cfg: Config, mem: seq<int>, p: Pool, head: int, c: int, k: nat, v: int)
    requires cfg.words >= 1 && Ok(cfg, |mem|, p) && c in p.live && k < cfg.words && 0 <= c && c + k < |mem|
    requires Threaded(mem, head, p.free)
    ensures Threaded(mem[c + k := v], head, p.free)
  {
    ChunkWordsApart(cfg, |mem|, p, c, k);
    forall d | d in p.free ensures d != c + k {
      assert d in Chunks(p) && d != c;
    }
    FrameThreads(mem, mem[c + k := v], head, p.free);
  }

  lemma NotYetDeposited(base: int, k: nat, count: nat, words: nat, free: seq<int>)
    requires words >= 1 && k < count
    requires forall c :: c in free ==> c + words <= base || ChunkAt(base, count, words) <= c
    ensures ChunkAt(base, k, words) !in Deposited(base, k, words, free)
    ensures base <= ChunkAt(base, k, words) && ChunkAt(base, k, words) + words <= ChunkAt(base, count, words)
    ensures ChunkAt(base, k + 1, words) == ChunkAt(base, k, words) + words
  {
    ChunksApart(base, k, count, words);
    DepositedIs(base, k, words, free);
    var s := Deposited(base, k, words, free);
    forall i | 0 <= i < |s| ensures s[i] != ChunkAt(base, k, words) {
      if i < k {
        ChunksApart(base, k - 1 - i, k, words);
      } else {
        assert s[i] == free[i - k] && free[i - k] in free;
      }
    }
  }
}
