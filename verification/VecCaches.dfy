/** Cached blocks with a dirty flag, and the bounded map that holds them. */
module VecCaches {
  import opened Wrappers

  /** A block of values that remembers whether it changed since it was read or written. */
  datatype VecCache = VecCache(vec: seq<nat>, dirty: bool)
  {
    /** Assigning an element marks the block dirty. */
    function Set(k: nat, v: nat): VecCache
      requires k < |vec|
    {
      VecCache(vec[k := v], true)
    }

    function MarkClean(): VecCache {
      VecCache(vec, false)
    }
  }

  type Cache = map<nat, VecCache>

  /** A new block of zeros; dirty, since it is not on disk yet. */
  function NewBlock(n: nat): VecCache {
    VecCache(ZeroBlock(n), true)
  }

  function ZeroBlock(n: nat): (z: seq<nat>)
    ensures |z| == n && forall k :: 0 <= k < n ==> z[k] == 0
  {
    seq(n, k => 0)
  }

  /**
   * `CacheMap::insert`: a full map first gives up an entry, any entry, which the caller has to
   * write back when it is dirty.
   */
  method Insert(map0: Cache, capacity: nat, index: nat, block: VecCache)
    returns (map1: Cache, evicted: Option<nat>)
    requires 0 < capacity && |map0| <= capacity && index !in map0
    ensures |map1| <= capacity
    ensures evicted.Some? <==> |map0| == capacity
    ensures evicted.Some? ==> evicted.value in map0
    ensures map1 == (if evicted.Some? then map0 - {evicted.value} else map0)[index := block]
  {
    map1, evicted := map0, None;
    if |map0| == capacity {
      var toEvict :| toEvict in map0;
      evicted := Some(toEvict);
      map1 := map0 - {toEvict};
      RemoveSize(map0, toEvict);
    }
    AddSize(map1, index, block);
    map1 := map1[index := block];
  }

  lemma RemoveSize(m: Cache, k: nat)
    requires k in m
    ensures |m - {k}| == |m| - 1
  {
    assert (m - {k}).Keys == m.Keys - {k};
    assert |m| == |m.Keys| && |m - {k}| == |(m - {k}).Keys|;
  }

  lemma AddSize(m: Cache, k: nat, block: VecCache)
    requires k !in m
    ensures |m[k := block]| == |m| + 1
  {
    assert m[k := block].Keys == m.Keys + {k};
    assert |m| == |m.Keys| && |m[k := block]| == |m[k := block].Keys|;
  }

  predicate AllClean(c: Cache) {
    forall i :: i in c ==> !c[i].dirty
  }

  function DirtyKeys(c: Cache): set<nat> {
    set i | i in c && c[i].dirty
  }

  lemma NoneDirty(c: Cache)
    requires DirtyKeys(c) == {}
    ensures AllClean(c)
  {
    forall i | i in c
      ensures !c[i].dirty
    {
      assert i !in DirtyKeys(c);
    }
  }

  lemma CleanOne(c: Cache, i: nat)
    requires i in c
    ensures DirtyKeys(c[i := c[i].MarkClean()]) == DirtyKeys(c) - {i}
    ensures c[i := c[i].MarkClean()].Keys == c.Keys
    ensures |c[i := c[i].MarkClean()]| == |c|
  {
    var d := c[i := c[i].MarkClean()];
    assert d.Keys == c.Keys;
    assert |d| == |d.Keys| && |c| == |c.Keys|;
  }

  lemma UpdateTwice(c: Cache, i: nat, v: VecCache, w: VecCache)
    ensures c[i := v][i := w] == c[i := w]
  {
  }

  lemma SetSize(c: Cache, i: nat, v: VecCache)
    requires i in c
    ensures |c[i := v]| == |c|
  {
    assert c[i := v].Keys == c.Keys;
    assert |c| == |c.Keys| && |c[i := v]| == |c[i := v].Keys|;
  }
}
