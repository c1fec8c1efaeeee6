/** The chunk stride that a pool's template parameters make, in whole words. */
module PoolGeometry {
  import opened Alignment
  import opened PoolSpec

  /**
   * Chunk geometry, for every ChunkBytes the pool accepts and every word width that can hold
   * its sizes: the stride is a whole number of words, long enough for ChunkBytes bytes, and
   * gives a usable configuration.
   */
  lemma StrideFits(w: nat, chunkBytes: nat, chunkCount: nat)
    requires w >= 3 && Pow2(w) >= 2048 && 1 <= chunkBytes <= 1024 && chunkCount >= 1
    ensures var stride := SafeAlignOf(w, chunkBytes, 8);
      && stride == 8 * (stride / 8) && chunkBytes <= stride < chunkBytes + 8
      && 1 <= stride / 8 <= 128
      && Usable(PoolConfig(chunkCount, stride / 8))
      && stride * GrowthCount(chunkCount, stride / 8) <= 4096
  {
    StrideInRange(w, chunkBytes);
    var words := SafeAlignOf(w, chunkBytes, 8) / 8;
    GrowthIsSmall(chunkCount, words);
  }
}
