/**
 * What a serial pool answers, told from its answers alone: from the chunks it has handed out and
 * taken back so far, and how many chunks that takes.
 */
module PoolAnswers {
  import opened PoolSpec
  import opened Sequences
  import opened Wrappers

  /** The chunks clients hold, and the chunks there are. */
  datatype Ledger = Ledger(held: set<int>, cut: nat)

  /** Kept by someone who sees the results only.  A chunk got when all were held means that a block was cut. */
  function LedgerOf(cfg: Config, log: seq<Event>): Ledger {
    if log == [] then Ledger({}, cfg.chunkCount)
    else
      var l, e := LedgerOf(cfg, log[..|log| - 1]), log[|log| - 1];
      match e.result
      case Got(c) => Ledger(l.held + {c}, if |l.held| == l.cut then l.cut + cfg.growth else l.cut)
      case BadAlloc => l
      case Freed => if e.op.Dealloc? then Ledger(l.held - {e.op.chunk}, l.cut) else l
  }

  /** All chunks cut so far are held. */
  predicate Exhausted(l: Ledger) {
    |l.held| == l.cut
  }

  /**
   * The k-th answer: dealloc takes back a chunk that is held.  alloc throws exactly if all chunks
   * are held and operator new gave no block; else it gives a chunk that nobody holds: the last of
   * the new block if all were held, and the one just given back if there was one.
   */
  ghost predicate Answered(cfg: Config, log: seq<Event>, k: nat)
    requires k < |log|
  {
    var e, l := log[k], LedgerOf(cfg, log[..k]);
    match e.op
    case Dealloc(c) => c in l.held && e.result == Freed
    case Alloc =>
      && (e.result.BadAlloc? <==> Exhausted(l) && e.block.None?)
      && (!e.result.BadAlloc? ==> e.result.Got? && e.result.chunk !in l.held)
      && (Exhausted(l) && e.block.Some? && cfg.growth >= 1 ==>
            e.result == Got(e.block.value + (cfg.growth - 1) * cfg.words))
      && (k > 0 && log[k - 1].op.Dealloc? ==> e.result == Got(log[k - 1].op.chunk))
  }

  ghost predicate AllAnswered(cfg: Config, log: seq<Event>) {
    forall k :: 0 <= k < |log| ==> Answered(cfg, log, k)
  }

  /** Giving a chunk back and asking for one restores the pool. */
  lemma DeallocAllocRestores(cfg: Config, p: Pool, c: int, block: Option<int>, other: Option<int>)
    requires cfg.words >= 1 && c in p.live
    ensures After(cfg, After(cfg, p, Dealloc(c), block), Alloc, other) == p
    ensures ResultOf(cfg, After(cfg, p, Dealloc(c), block), Alloc, other) == Got(c)
  {
    var q := After(cfg, p, Dealloc(c), block);
    assert q.free == [c] + p.free && q.free[1..] == p.free;
    assert p.live - {c} + {c} == p.live;
  }

  /** Asking for a chunk and giving it back restores a pool that had one. */
  lemma AllocDeallocRestores(cfg: Config, size: nat, p: Pool, block: Option<int>, other: Option<int>)
    requires cfg.words >= 1 && Ok(cfg, size, p) && |p.live| < p.total
    ensures var r := ResultOf(cfg, p, Alloc, block);
      r.Got? && After(cfg, After(cfg, p, Alloc, block), Dealloc(r.chunk), other) == p
  {
    var c := p.free[0];
    assert c in p.free;
    assert c !in p.live;
    assert [c] + p.free[1..] == p.free;
    assert p.live + {c} - {c} == p.live;
  }

  /** One alloc, told by how many chunks are free. */
  lemma AllocAnswers(cfg: Config, size: nat, p: Pool, block: Option<int>)
    requires Usable(cfg) && Ok(cfg, size, p) && Legal(cfg, size, p, Alloc, block)
    ensures var r, q := ResultOf(cfg, p, Alloc, block), After(cfg, p, Alloc, block);
      && (r.BadAlloc? <==> |p.live| == p.total && block.None?)
      && (r.BadAlloc? ==> q == p)
      && (!r.BadAlloc? ==> r.Got? && r.chunk !in p.live && q.live == p.live + {r.chunk})
      && (!r.BadAlloc? ==> q.total == if |p.live| == p.total then p.total + cfg.growth else p.total)
      && (|p.live| == p.total && block.Some? ==> r == Got(block.value + (cfg.growth - 1) * cfg.words))
  {
    if p.free != [] {
      var c := p.free[0];
      assert c in p.free;
      assert c !in p.live;
    } else if block.Some? {
      NewBlockAnswers(cfg, size, p, block.value);
    }
  }

  /** From a new block the last chunk is handed out first. */
  lemma NewBlockAnswers(cfg: Config, size: nat, p: Pool, base: int)
    requires Usable(cfg) && Ok(cfg, size, p) && p.free == [] && Fresh(cfg, size, p, base, cfg.growth)
    ensures var q := Grown(cfg, p, base, cfg.growth);
      && q.free != [] && q.free[0] == base + (cfg.growth - 1) * cfg.words && q.free[0] !in p.live
  {
    DepositedIs(base, cfg.growth, cfg.words, p.free);
    DepositIsNew(cfg, size, p, base, cfg.growth, cfg.growth - 1);
    ChunkAtIs(base, cfg.growth - 1, cfg.words);
  }

  /** The ledger of the answers agrees with the pool. */
  lemma {:induction false} LedgerAgrees(cfg: Config, size: nat, base: int, log: seq<Event>)
    requires Usable(cfg) && Fresh(cfg, size, Pool([], {}, 0), base, cfg.chunkCount)
    requires SerialHistory(cfg, size, Initial(cfg, base), log)
    ensures var q := Replay(cfg, Initial(cfg, base), log);
      Ok(cfg, size, q) && LedgerOf(cfg, log) == Ledger(q.live, q.total)
  {
    InitialIsOk(cfg, size, base);
    HistoryKeepsOk(cfg, size, Initial(cfg, base), log);
    if log != [] {
      var e, earlier := log[|log| - 1], log[..|log| - 1];
      LedgerAgrees(cfg, size, base, earlier);
      if e.op.Alloc? {
        AllocAnswers(cfg, size, Replay(cfg, Initial(cfg, base), earlier), e.block);
      }
    }
  }

  lemma {:induction false} PrefixIsSerial(cfg: Config, size: nat, p: Pool, log: seq<Event>, k: nat)
    requires cfg.words >= 1 && SerialHistory(cfg, size, p, log) && k <= |log|
    ensures SerialHistory(cfg, size, p, log[..k])
  {
    if k < |log| {
      PrefixIsSerial(cfg, size, p, log[..|log| - 1], k);
      assert log[..|log| - 1][..k] == log[..k];
    } else {
      assert log[..k] == log;
    }
  }

  /** The last answer of a history. */
  lemma LastAnswered(cfg: Config, size: nat, base: int, log: seq<Event>)
    requires Usable(cfg) && Fresh(cfg, size, Pool([], {}, 0), base, cfg.chunkCount) && log != []
    requires SerialHistory(cfg, size, Initial(cfg, base), log)
    ensures Answered(cfg, log, |log| - 1)
  {
    var k := |log| - 1;
    var e, p := log[k], Replay(cfg, Initial(cfg, base), log[..k]);
    LedgerAgrees(cfg, size, base, log[..k]);
    if e.op.Alloc? {
      AllocAnswers(cfg, size, p, e.block);
      if k > 0 && log[k - 1].op.Dealloc? {
        JustGivenBack(cfg, size, Initial(cfg, base), log);
      }
    }
  }

  lemma JustGivenBack(cfg: Config, size: nat, p: Pool, log: seq<Event>)
    requires cfg.words >= 1 && |log| >= 2 && SerialHistory(cfg, size, p, log)
    requires log[|log| - 1].op.Alloc? && log[|log| - 2].op.Dealloc?
    ensures log[|log| - 1].result == Got(log[|log| - 2].op.chunk)
  {
    var n := |log| - 1;
    var e, d := log[n], log[n - 1];
    assert log[..n][n - 1] == d && log[..n][..n - 1] == log[..n - 1];
    assert SerialHistory(cfg, size, p, log[..n]);
    DeallocAllocRestores(cfg, Replay(cfg, p, log[..n - 1]), d.op.chunk, d.block, e.block);
  }

  /** Every answer of every serial history is the one the earlier answers ask for. */
  lemma HistoryIsAnswered(cfg: Config, size: nat, base: int, log: seq<Event>)
    requires Usable(cfg) && Fresh(cfg, size, Pool([], {}, 0), base, cfg.chunkCount)
    requires SerialHistory(cfg, size, Initial(cfg, base), log)
    ensures AllAnswered(cfg, log)
  {
    forall k | 0 <= k < |log| ensures Answered(cfg, log, k) {
      PrefixIsSerial(cfg, size, Initial(cfg, base), log, k + 1);
      LastAnswered(cfg, size, base, log[..k + 1]);
      assert log[..k + 1][..k] == log[..k];
    }
  }
}
