/** The reference counts of an open image: the refcount table and a cache of refcount blocks. */
module RefCounts {
  import opened HostBytes
  import opened PointerTables
  import opened Wrappers
  import opened VecCaches
  import opened CachedTables
  import opened Journals
  import opened QcowRawFiles

  const REFBLOCK_CACHE_CAPACITY: nat := 50

  /** The outcome of setting a count; the last two ask the caller to call again with a cluster. */
  datatype SetResult =
    | Done(dropped: Option<nat>)
    | InvalidIndex
    | NeedCluster(addr: nat)
    | NeedNewCluster

  /**
   * What one attempt to set entry `n` of block `t` to `c` does. A block that is not cached needs
   * the cluster `nc`, whose arrival may evict block `e`; a clean block needs a new home.
   */
  ghost predicate SetEffect(cs: nat, b: seq<byte>, lv: Level, b': seq<byte>, lv': Level, t: nat, n: nat, c: nat,
                            nc: Option<(nat, VecCache)>, e: Option<nat>, r: SetResult)
  {
    && cs % 8 == 0
    && (e.Some? ==> e.value in lv.cache && CachedOk(cs, b, lv, e.value))
    && b' == SwappedBytes(cs, b, lv, e)
    && if t >= |lv.top| then
         r == InvalidIndex && e.None? && lv' == lv
       else if t !in lv.cache && nc.None? then
         r == (if lv.top[t] == 0 then NeedNewCluster else NeedCluster(lv.top[t])) && e.None? && lv' == lv
       else if t !in lv.cache then
         var (addr, table) := nc.value;
         && n < |table.vec|
         && r == (if table.dirty then Done(None) else NeedNewCluster)
         && lv' == Swapped(lv, e, t, if table.dirty then table.Set(n, c) else table).(top := lv.top[t := addr])
       else
         && n < |lv.cache[t].vec| && e.None?
         && if lv.cache[t].dirty then
              r == Done(None) && lv' == lv.(cache := lv.cache[t := lv.cache[t].Set(n, c)])
            else if nc.Some? then
              && r == Done(Some(lv.top[t]))
              && lv' == lv.(top := lv.top[t := nc.value.0], cache := lv.cache[t := lv.cache[t].Set(n, c)])
            else
              r == NeedNewCluster && lv' == lv
  }

  /** Block `t` came into the cache from disk, with `e` written back and gone if one had to leave. */
  ghost predicate LoadEffect(cs: nat, b: seq<byte>, lv: Level, b': seq<byte>, lv': Level, t: nat, e: Option<nat>) {
    && cs % 8 == 0
    && t < |lv.top| && lv.top[t] != 0 && t !in lv.cache && lv.top[t] + cs <= |b|
    && (e.Some? ==> e.value in lv.cache && CachedOk(cs, b, lv, e.value))
    && b' == SwappedBytes(cs, b, lv, e)
    && lv' == Swapped(lv, e, t, VecCache(DecodeBlock(lv.kind, cs, Cluster(cs, b, lv.top[t])), false))
  }

  class RefCount {
    const clusterSize: nat
    const refcountTableOffset: nat
    const refcountBlockEntries: nat
    const maxValidClusterOffset: nat
    var refTable: VecCache
    var refblockCache: Cache

    ghost function Lv(): Level
      reads this
    {
      Level(Counts, refTable.vec, refblockCache)
    }

    /** The blocks are sound, and every dirty one may be written to its home cluster. */
    ghost predicate Valid(raw: QcowRawFile)
      reads this, raw
    {
      && raw.Valid() && raw.clusterSize == clusterSize && refcountBlockEntries == clusterSize / 2
      && 0 < refcountBlockEntries
      && LevelOk(clusterSize, raw.bytes, Lv()) && DistinctTops(refTable.vec)
      && |refblockCache| <= REFBLOCK_CACHE_CAPACITY
      && (forall t :: t in refblockCache && refblockCache[t].dirty && t < |refTable.vec| ==>
            raw.Writable(refTable.vec[t], clusterSize))
    }

    constructor (clusterSize: nat, offset: nat, table: seq<nat>)
      requires 2 <= clusterSize && table != []
      ensures this.clusterSize == clusterSize && refcountBlockEntries == clusterSize / 2
      ensures refcountTableOffset == offset
      ensures refTable == VecCache(table, false) && refblockCache == map[]
      ensures maxValidClusterOffset == (|table| * (clusterSize / 2) - 1) * clusterSize
    {
      this.clusterSize := clusterSize;
      this.refcountTableOffset := offset;
      this.refcountBlockEntries := clusterSize / 2;
      this.refTable := VecCache(table, false);
      this.refblockCache := map[];
      assert |table| * (clusterSize / 2) >= 1;
      this.maxValidClusterOffset := (|table| * (clusterSize / 2) - 1) * clusterSize;
    }

    /** Table index and block index of the count of the cluster at `address`. */
    function RefcountIndex(address: nat): (nat, nat)
      requires 0 < clusterSize && 0 < refcountBlockEntries
    {
      ((address / clusterSize) / refcountBlockEntries, (address / clusterSize) % refcountBlockEntries)
    }

    /** Puts a block into the cache, writing back the block that has to leave, if any. */
    method CacheBlock(raw: QcowRawFile, index: nat, block: VecCache) returns (evicted: Option<nat>)
      requires Valid(raw) && index !in refblockCache
      modifies this`refblockCache, raw
      ensures raw.Valid() && Continued(old(raw.journal), raw.journal)
      ensures |refblockCache| <= REFBLOCK_CACHE_CAPACITY
      ensures evicted.Some? ==>
                evicted.value in old(refblockCache)
                && CachedOk(clusterSize, old(raw.bytes), old(Lv()), evicted.value)
      ensures raw.bytes == SwappedBytes(clusterSize, old(raw.bytes), old(Lv()), evicted)
      ensures Lv() == Swapped(old(Lv()), evicted, index, block)
    {
      hide JournalOk, Continued, DistinctTops, PlainOk, Clear, Beside, DecodeBlock, Storable;
      ContinuedSelf(raw.journal);
      var before := refblockCache;
      refblockCache, evicted := Insert(refblockCache, REFBLOCK_CACHE_CAPACITY, index, block);
      if evicted.Some? {
        var e := evicted.value;
        assert CachedOk(clusterSize, old(raw.bytes), old(Lv()), e);
        BlockRoundTrip(Counts, clusterSize, before[e].vec);
        if before[e].dirty {
          raw.WriteRefcountBlock(refTable.vec[e], before[e].vec);
        }
      }
    }

    /**
     * Sets a count, or asks for the block or the new cluster it needs. A block that is clean is
     * moved to the new cluster; the address it had is returned as dropped.
     */
    method SetClusterRefcount(raw: QcowRawFile, clusterAddress: nat, refcount: nat,
                              newCluster: Option<(nat, VecCache)>)
      returns (r: SetResult, ghost evicted: Option<nat>)
      requires Valid(raw)
      requires newCluster.Some? ==> |newCluster.value.1.vec| == refcountBlockEntries
      modifies this, raw
      ensures raw.Valid() && Continued(old(raw.journal), raw.journal)
      ensures |refblockCache| <= REFBLOCK_CACHE_CAPACITY
      ensures var (t, n) := RefcountIndex(clusterAddress);
              SetEffect(clusterSize, old(raw.bytes), old(Lv()), raw.bytes, Lv(), t, n, refcount, newCluster, evicted, r)
      ensures refTable == old(refTable) || refTable.dirty
    {
      hide JournalOk, Continued, DistinctTops, PlainOk, Storable, DecodeBlock, Clear, SwappedBytes;
      ContinuedSelf(raw.journal);
      SwappedNone(clusterSize, raw.bytes, Lv());
      var (t, n) := RefcountIndex(clusterAddress);
      evicted := None;
      if t >= |refTable.vec| {
        return InvalidIndex, evicted;
      }
      var blockAddrDisk := refTable.vec[t];
      var pending := newCluster;
      // Fill the cache if this block is not there yet.
      if t !in refblockCache {
        if pending.None? {
          return if blockAddrDisk == 0 then NeedNewCluster else NeedCluster(blockAddrDisk), evicted;
        }
        var (addr, table) := pending.value;
        pending := None;
        evicted := CacheBlock(raw, t, table);
        refTable := refTable.Set(t, addr);
      } else {
        assert CachedOk(clusterSize, raw.bytes, Lv(), t);
      }
      var dropped: Option<nat> := None;
      if !refblockCache[t].dirty {
        // Modified counts go to a new block, so the state on disk stays consistent.
        if pending.None? {
          return NeedNewCluster, evicted;
        }
        refTable := refTable.Set(t, pending.value.0);
        dropped := Some(blockAddrDisk);
      }
      if newCluster.Some? {
        UpdateTwice(old(refblockCache), t, newCluster.value.1, refblockCache[t].Set(n, refcount));
        if evicted.Some? {
          UpdateTwice(old(refblockCache) - {evicted.value}, t, newCluster.value.1, refblockCache[t].Set(n, refcount));
        }
      }
      refblockCache := refblockCache[t := refblockCache[t].Set(n, refcount)];
      return Done(dropped), evicted;
    }

    /** Writes every dirty block to its cluster and marks it clean; no count changes. */
    method FlushBlocks(raw: QcowRawFile)
      requires Valid(raw)
      modifies this`refblockCache, raw
      ensures Valid(raw) && Continued(old(raw.journal), raw.journal)
      ensures refblockCache.Keys == old(refblockCache).Keys
      ensures AllClean(refblockCache)
      ensures SameBlocks(clusterSize, old(raw.bytes), old(Lv()), raw.bytes, Lv())
      ensures SameOutside(clusterSize, old(raw.bytes), raw.bytes, refTable.vec)
    {
      hide LevelOk, DistinctTops, Kept, SameBlocks, SameOutside, Clear;
      ghost var b0, lv0 := raw.bytes, Lv();
      SameBlocksRefl(clusterSize, b0, lv0);
      var todo := DirtyKeys(refblockCache);
      while todo != {}
        invariant Valid(raw) && Continued(old(raw.journal), raw.journal)
        invariant refblockCache.Keys == lv0.cache.Keys
        invariant todo == DirtyKeys(refblockCache)
        invariant SameBlocks(clusterSize, b0, lv0, raw.bytes, Lv())
        invariant SameOutside(clusterSize, b0, raw.bytes, refTable.vec)
        decreases todo
      {
        ghost var b1, lv1 := raw.bytes, Lv();
        var t :| t in todo;
        CleanOne(refblockCache, t);
        FlushBlock(raw, t);
        SameBlocksTrans(clusterSize, b0, lv0, b1, lv1, raw.bytes, Lv());
        SameOutsideTrans(clusterSize, b0, b1, raw.bytes, refTable.vec);
        todo := todo - {t};
      }
      NoneDirty(refblockCache);
    }

    method FlushBlock(raw: QcowRawFile, t: nat)
      requires Valid(raw) && t in refblockCache && refblockCache[t].dirty
      modifies this`refblockCache, raw
      ensures Valid(raw) && Continued(old(raw.journal), raw.journal)
      ensures refblockCache == old(refblockCache)[t := old(refblockCache)[t].MarkClean()]
      ensures SameBlocks(clusterSize, old(raw.bytes), old(Lv()), raw.bytes, Lv())
      ensures SameOutside(clusterSize, old(raw.bytes), raw.bytes, refTable.vec)
    {
      hide JournalOk, Plain, DecodeBlock, Storable, SameClusters, Clear, Splice, SameOutside, SameBlocks, LevelOk,
           CachedOk;
      CachedIn(clusterSize, raw.bytes, Lv(), t);
      CachedHome(clusterSize, raw.bytes, Lv(), t);
      CleanKeeps(clusterSize, raw.bytes, Lv(), t);
      raw.WriteRefcountBlock(refTable.vec[t], refblockCache[t].vec);
      CleanOne(refblockCache, t);
      refblockCache := refblockCache[t := refblockCache[t].MarkClean()];
      SpliceOutside(clusterSize, old(raw.bytes), refTable.vec, t, EncodeCounts(refblockCache[t].vec));
    }

    /** Reads a block that has a home cluster into the cache. */
    method LoadBlock(raw: QcowRawFile, t: nat) returns (evicted: Option<nat>)
      requires Valid(raw) && t < |refTable.vec| && refTable.vec[t] != 0 && t !in refblockCache
      modifies this`refblockCache, raw
      ensures raw.Valid() && Continued(old(raw.journal), raw.journal)
      ensures |refblockCache| <= REFBLOCK_CACHE_CAPACITY
      ensures LoadEffect(clusterSize, old(raw.bytes), old(Lv()), raw.bytes, Lv(), t, evicted)
    {
      hide LevelOk, DistinctTops, Kept, SwappedBytes, CachedOk, Clear;
      HomeInFile(clusterSize, raw.bytes, Lv(), t);
      var block := raw.ReadRefcountBlock(refTable.vec[t]);
      evicted := CacheBlock(raw, t, VecCache(block.value, false));
    }

    /**
     * The count of the cluster at `address`. Reading it may bring block `loaded` into the cache,
     * with `evicted` leaving for it.
     */
    method GetClusterRefcount(raw: QcowRawFile, address: nat)
      returns (r: IoResult<nat>, ghost loaded: Option<nat>, ghost evicted: Option<nat>)
      requires Valid(raw)
      modifies this`refblockCache, raw
      ensures raw.Valid() && Continued(old(raw.journal), raw.journal)
      ensures |refblockCache| <= REFBLOCK_CACHE_CAPACITY
      ensures if loaded.Some?
              then LoadEffect(clusterSize, old(raw.bytes), old(Lv()), raw.bytes, Lv(), loaded.value, evicted)
              else raw.bytes == old(raw.bytes) && refblockCache == old(refblockCache)
      ensures var (t, n) := RefcountIndex(address);
              if t >= |refTable.vec| then r == Err(EINVAL)
              else r == Ok(Entry(clusterSize, old(raw.bytes), old(Lv()), t, n))
    {
      var (t, n) := RefcountIndex(address);
      loaded, evicted := None, None;
      if t >= |refTable.vec| {
        return Err(EINVAL), loaded, evicted;
      }
      var blockAddrDisk := refTable.vec[t];
      if blockAddrDisk == 0 {
        assert t in refblockCache ==> CachedOk(clusterSize, raw.bytes, Lv(), t);
        return Ok(0), loaded, evicted;
      }
      if t !in refblockCache {
        var gone := LoadBlock(raw, t);
        loaded, evicted := Some(t), gone;
      } else {
        assert CachedOk(clusterSize, raw.bytes, Lv(), t);
      }
      return Ok(refblockCache[t].vec[n]), loaded, evicted;
    }
  }
}
