/** What every elementary step on an open image keeps. */
module QcowSteps {
  import opened Arithmetic
  import opened HostBytes
  import opened PointerTables
  import opened VecCaches
  import opened CachedTables
  import opened QcowImage

  lemma InvShape(g: Geometry, s: Image, k: Ledger)
    requires Inv(g, s, k)
    ensures GeometryOk(g) && ShapeOk(g, s)
  {
  }

  lemma AreasSelf(g: Geometry, s: Image, k: Ledger)
    requires Inv(g, s, k)
    ensures SameAreas(g, s.bytes, s.bytes)
  {
  }

  // Steps that only change bytes of the host file.

  /** Writing inside a cluster that is not reserved leaves the table areas alone. */
  lemma SpliceAreas(g: Geometry, b: seq<byte>, own: map<nat, Role>, x: nat, off: nat, d: seq<byte>)
    requires GeometryOk(g) && InFile(g, b) && OwnedOk(g, b, own)
    requires x in own && !own[x].Fixed?
    requires x <= off && off + |d| <= x + g.clusterSize
    ensures off + |d| <= |b| && SameAreas(g, b, Splice(b, off, d))
  {
    assert !Reserved(g, x);
    SpliceApart(b, off, d, g.l1Offset, g.l1Offset + 8 * g.l1Len);
    SpliceApart(b, off, d, g.refTableOffset, g.refTableOffset + 8 * g.refTableLen);
  }

  /** Changing clusters that hold no table block keeps the invariant and every lookup. */
  lemma BytesFrame(g: Geometry, s: Image, k: Ledger, b': seq<byte>, xs: set<nat>)
    requires Inv(g, s, k)
    requires SameClusters(g.clusterSize, s.bytes, b', xs) && InFile(g, b')
    requires |b'| == |s.bytes| || (|b'| % g.clusterSize == 0 && |b'| <= g.limit)
    requires forall x :: x in xs && x in k.own ==> !k.own[x].L2Table? && !k.own[x].RefBlock?
    ensures Inv(g, s.(bytes := b'), k)
    ensures SameBlocks(g.clusterSize, s.bytes, s.l2, b', s.l2)
    ensures SameBlocks(g.clusterSize, s.bytes, s.rc, b', s.rc)
  {
    LevelFrame(g.clusterSize, s.bytes, b', s.l2, xs);
    LevelFrame(g.clusterSize, s.bytes, b', s.rc, xs);
    SameBlocksKeep(g, s, k, s.(bytes := b'));
  }

  /** Same blocks, same tables, same lists: the invariant carries over. */
  lemma SameBlocksKeep(g: Geometry, s: Image, k: Ledger, s': Image)
    requires Inv(g, s, k) && ShapeOk(g, s') && |s.bytes| <= |s'.bytes|
    requires |s'.bytes| == |s.bytes| || (|s'.bytes| % g.clusterSize == 0 && |s'.bytes| <= g.limit)
    requires s'.l2.top == s.l2.top && s'.rc.top == s.rc.top
    requires s'.avail == s.avail && s'.unref == s.unref
    requires SameBlocks(g.clusterSize, s.bytes, s.l2, s'.bytes, s'.l2)
    requires SameBlocks(g.clusterSize, s.bytes, s.rc, s'.bytes, s'.rc)
    requires FrozenOk(s', k.own, k.frozen)
    ensures Inv(g, s', k)
  {
    forall i: nat, j: nat
      ensures var d := Entry(g.clusterSize, s'.bytes, s'.l2, i, j);
              d != 0 ==> d in k.own && k.own[d] == Data(i, j)
    {
      assert Block(g.clusterSize, s'.bytes, s'.l2, i) == Block(g.clusterSize, s.bytes, s.l2, i);
      assert Entry(g.clusterSize, s'.bytes, s'.l2, i, j) == Entry(g.clusterSize, s.bytes, s.l2, i, j);
    }
    forall a | a in k.own && Live(k.own[a]) && a !in k.pending
      ensures Count(g, s'.bytes, s'.rc, a) >= 1
    {
      SameCount(g, s.bytes, s.rc, s'.bytes, s'.rc, a);
    }
    forall a: nat | TailCluster(g.clusterSize, |s'.bytes|, a)
      ensures a in k.own && k.own[a].Fixed?
    {
      if |s'.bytes| == |s.bytes| {
        assert TailCluster(g.clusterSize, |s.bytes|, a);
      } else {
        AlignedApart(g.clusterSize, a, |s'.bytes|);
      }
    }
  }

  lemma SameCount(g: Geometry, b: seq<byte>, rc: Level, b': seq<byte>, rc': Level, a: nat)
    requires 2 <= g.clusterSize && SameBlocks(g.clusterSize, b, rc, b', rc')
    ensures Count(g, b', rc', a) == Count(g, b, rc, a)
  {
    var (t, _) := RefIndex(g, a);
    assert Block(g.clusterSize, b', rc', t) == Block(g.clusterSize, b, rc, t);
  }

  /** Changing clusters that hold no data leaves the virtual disk as it is. */
  lemma ContentsFrame(g: Geometry, s: Image, k: Ledger, s': Image, xs: set<nat>)
    requires Inv(g, s, k)
    requires SameClusters(g.clusterSize, s.bytes, s'.bytes, xs)
    requires SameBlocks(g.clusterSize, s.bytes, s.l2, s'.bytes, s'.l2)
    requires forall x :: x in xs && x in k.own ==> !k.own[x].Data?
    ensures Contents(g, s'.bytes, s'.l2) == Contents(g, s.bytes, s.l2)
  {
    DataInFile(g, s.bytes, k.own);
    forall v: nat | v < g.size
      ensures ByteAt(g, s'.bytes, s'.l2, v) == ByteAt(g, s.bytes, s.l2, v)
    {
      SameByteAt(g, s, k.own, s', xs, v);
    }
  }

  /** Data clusters lie whole inside the file. */
  ghost predicate DataOk(cs: nat, b: seq<byte>, own: map<nat, Role>)
    requires 0 < cs
  {
    forall a :: a in own && own[a].Data? ==> a % cs == 0 && a + cs <= |b|
  }

  lemma DataInFile(g: Geometry, b: seq<byte>, own: map<nat, Role>)
    requires 0 < g.clusterSize && OwnedOk(g, b, own)
    ensures DataOk(g.clusterSize, b, own)
  {
  }

  lemma SameByteAt(g: Geometry, s: Image, own: map<nat, Role>, s': Image, xs: set<nat>, v: nat)
    requires 8 <= g.clusterSize && DataOk(g.clusterSize, s.bytes, own) && MappedOk(g, s, own)
    requires SameClusters(g.clusterSize, s.bytes, s'.bytes, xs)
    requires SameBlocks(g.clusterSize, s.bytes, s.l2, s'.bytes, s'.l2)
    requires forall x :: x in xs && x in own ==> !own[x].Data?
    ensures ByteAt(g, s'.bytes, s'.l2, v) == ByteAt(g, s.bytes, s.l2, v)
  {
    var c, off := VirtualCluster(g, v), ClusterOffset(g, v);
    SameMapEntry(g, s, s', c);
    SameByte(g.clusterSize, s.bytes, s'.bytes, own, xs, MapEntry(g, s.bytes, s.l2, c), off);
  }

  lemma SameMapEntry(g: Geometry, s: Image, s': Image, c: nat)
    requires 8 <= g.clusterSize && SameBlocks(g.clusterSize, s.bytes, s.l2, s'.bytes, s'.l2)
    ensures MapEntry(g, s'.bytes, s'.l2, c) == MapEntry(g, s.bytes, s.l2, c)
  {
    var (i, _) := MapIndex(g, c);
    assert Block(g.clusterSize, s'.bytes, s'.l2, i) == Block(g.clusterSize, s.bytes, s.l2, i);
  }

  lemma SameByte(cs: nat, b: seq<byte>, b': seq<byte>, own: map<nat, Role>, xs: set<nat>, a: nat, off: nat)
    requires 0 < cs && off < cs && DataOk(cs, b, own) && SameClusters(cs, b, b', xs)
    requires a != 0 ==> a in own && own[a].Data? && a !in xs
    ensures ByteIn(b', a, off) == ByteIn(b, a, off)
  {
    if a != 0 {
      assert Cluster(cs, b', a)[off] == Cluster(cs, b, a)[off];
    }
  }

  /** No lookup, no guest-visible byte and no on-disk top-level table changed. */
  ghost predicate Quiet(g: Geometry, s: Image, s': Image)
    requires 8 <= g.clusterSize
  {
    && SameBlocks(g.clusterSize, s.bytes, s.l2, s'.bytes, s'.l2)
    && SameBlocks(g.clusterSize, s.bytes, s.rc, s'.bytes, s'.rc)
    && Contents(g, s'.bytes, s'.l2) == Contents(g, s.bytes, s.l2)
    && SameAreas(g, s.bytes, s'.bytes)
  }

  // Getting a cluster.

  /** `avail_clusters.pop()` and zeroing the cluster. */
  function TakenAvail(g: Geometry, s: Image): Image
    requires s.avail != [] && s.avail[|s.avail| - 1] + g.clusterSize <= |s.bytes|
  {
    var n := |s.avail| - 1;
    s.(avail := s.avail[..n], bytes := Splice(s.bytes, s.avail[n], Zeros(g.clusterSize)))
  }

  lemma TakeAvail(g: Geometry, s: Image, k: Ledger)
    requires Inv(g, s, k) && s.avail != []
    ensures var x := s.avail[|s.avail| - 1];
            && x in k.own && k.own[x].Avail? && x !in k.frozen.blocks && x + g.clusterSize <= |s.bytes|
            && Inv(g, TakenAvail(g, s), k.(own := k.own[x := Held]))
            && Quiet(g, s, TakenAvail(g, s))
            && SameClusters(g.clusterSize, s.bytes, TakenAvail(g, s).bytes, {x})
            && Cluster(g.clusterSize, TakenAvail(g, s).bytes, x) == Zeros(g.clusterSize)
  {
    hide Inv, Splice, Contents, SameBlocks, SameAreas, SameClusters, Cluster, Quiet, TakenAvail, Popped;
    LastAvail(g, s, k);
    var x := s.avail[|s.avail| - 1];
    ZeroUnlinked(g, s, k, x);
    PopAvail(g, s.(bytes := Splice(s.bytes, x, Zeros(g.clusterSize))), k);
    TakenIs(g, s);
  }

  lemma TakenIs(g: Geometry, s: Image)
    requires 8 <= g.clusterSize && s.avail != [] && s.avail[|s.avail| - 1] + g.clusterSize <= |s.bytes|
    ensures var s1 := s.(bytes := Splice(s.bytes, s.avail[|s.avail| - 1], Zeros(g.clusterSize)));
            Quiet(g, s, s1) ==> Quiet(g, s, TakenAvail(g, s))
    ensures TakenAvail(g, s).bytes == Splice(s.bytes, s.avail[|s.avail| - 1], Zeros(g.clusterSize))
    ensures TakenAvail(g, s) == Popped(s.(bytes := TakenAvail(g, s).bytes))
  {
    hide Splice, Contents, SameBlocks, SameAreas;
  }

  function Popped(s: Image): Image
    requires s.avail != []
  {
    s.(avail := s.avail[..|s.avail| - 1])
  }

  lemma LastAvail(g: Geometry, s: Image, k: Ledger)
    requires Inv(g, s, k) && s.avail != []
    ensures 8 <= g.clusterSize
    ensures var x := s.avail[|s.avail| - 1];
            x in k.own && k.own[x].Avail? && x !in k.frozen.blocks && x + g.clusterSize <= |s.bytes|
  {
  }

  /** Zeroing a cluster that no pointer leads to is not noticed. */
  lemma ZeroUnlinked(g: Geometry, s: Image, k: Ledger, x: nat)
    requires Inv(g, s, k) && x in k.own && k.own[x].Avail? && x + g.clusterSize <= |s.bytes|
    ensures var b' := Splice(s.bytes, x, Zeros(g.clusterSize));
            && Inv(g, s.(bytes := b'), k) && 8 <= g.clusterSize && Quiet(g, s, s.(bytes := b'))
            && SameClusters(g.clusterSize, s.bytes, b', {x}) && Cluster(g.clusterSize, b', x) == Zeros(g.clusterSize)
  {
    hide ShapeOk, LinkedOk, CountedOk, FrozenOk, Contents, SameBlocks, SameAreas, Reserved, TailCluster;
    InvShape(g, s, k);
    var b' := Splice(s.bytes, x, Zeros(g.clusterSize));
    SpliceAreas(g, s.bytes, k.own, x, x, Zeros(g.clusterSize));
    SpliceInCluster(g.clusterSize, s.bytes, x, x, Zeros(g.clusterSize));
    BytesFrame(g, s, k, b', {x});
    ContentsFrame(g, s, k, s.(bytes := b'), {x});
  }

  lemma PopAvail(g: Geometry, s: Image, k: Ledger)
    requires Inv(g, s, k) && s.avail != [] && s.avail[|s.avail| - 1] in k.own && k.own[s.avail[|s.avail| - 1]].Avail?
    ensures Inv(g, Popped(s), k.(own := k.own[s.avail[|s.avail| - 1] := Held]))
  {
    hide LevelOk, OwnedOk, MappedOk, PlacesOk, CountedOk, FrozenOk, SameBlocks;
    var x := s.avail[|s.avail| - 1];
    ChangeRole(g, s.bytes, k.own, x, Held);
    SameBlocksRefl(g.clusterSize, s.bytes, s.l2);
    SameBlocksRefl(g.clusterSize, s.bytes, s.rc);
    RelinkedMap(g, s, k, Popped(s), k.own[x := Held]);
    RelinkedCounts(g, s, k, Popped(s), k.(own := k.own[x := Held]));
    PoppedPlaces(s, k);
  }

  lemma PoppedPlaces(s: Image, k: Ledger)
    requires PlacesOk(s, k.own) && FrozenOk(s, k.own, k.frozen) && s.avail != []
    ensures PlacesOk(Popped(s), k.own[s.avail[|s.avail| - 1] := Held])
    ensures FrozenOk(Popped(s), k.own[s.avail[|s.avail| - 1] := Held], k.frozen)
  {
    var own' := k.own[s.avail[|s.avail| - 1] := Held];
    forall a | a in own'
      ensures InPlace(Popped(s), a, own'[a])
    {
      assert a in k.own ==> InPlace(s, a, k.own[a]);
    }
  }

  /** The address `add_cluster_end` appends at. */
  function EndAddress(g: Geometry, b: seq<byte>): nat
    requires 0 < g.clusterSize
  {
    CeilDiv(|b|, g.clusterSize) * g.clusterSize
  }

  lemma EndAddressOk(g: Geometry, b: seq<byte>)
    requires 0 < g.clusterSize
    ensures EndAddress(g, b) % g.clusterSize == 0
    ensures |b| <= EndAddress(g, b) < |b| + g.clusterSize
  {
    var cs, q, r := g.clusterSize, |b| / g.clusterSize, |b| % g.clusterSize;
    assert |b| == cs * q + r;
    MultipleAligned(cs, CeilDiv(|b|, cs));
    assert (q + 1) * cs == cs * q + cs;
  }

  function Grown(g: Geometry, s: Image): Image
    requires 0 < g.clusterSize && |s.bytes| <= EndAddress(g, s.bytes)
  {
    s.(bytes := s.bytes + Zeros(EndAddress(g, s.bytes) + g.clusterSize - |s.bytes|))
  }

  /** What appending a cluster does to the bytes. */
  lemma GrowBytes(g: Geometry, s: Image)
    requires 0 < g.clusterSize && |s.bytes| <= EndAddress(g, s.bytes) && InFile(g, s.bytes)
    ensures var x, s' := EndAddress(g, s.bytes), Grown(g, s);
            && |s'.bytes| == x + g.clusterSize && |s'.bytes| % g.clusterSize == 0 && InFile(g, s'.bytes)
            && Cluster(g.clusterSize, s'.bytes, x) == Zeros(g.clusterSize)
            && SameClusters(g.clusterSize, s.bytes, s'.bytes, {}) && SameAreas(g, s.bytes, s'.bytes)
  {
    hide EndAddress;
    EndAddressOk(g, s.bytes);
    NextAligned(g.clusterSize, EndAddress(g, s.bytes));
    var s' := Grown(g, s);
    assert L1Area(g, s'.bytes) == L1Area(g, s.bytes);
    assert RefTableArea(g, s'.bytes) == RefTableArea(g, s.bytes);
  }

  /** A cluster that has no role yet gets one. */
  lemma NewCluster(g: Geometry, s: Image, k: Ledger, x: nat)
    requires Inv(g, s, k) && x !in k.own && x % g.clusterSize == 0
    requires x + g.clusterSize <= |s.bytes| && x + g.clusterSize <= g.limit
    ensures Inv(g, s, k.(own := k.own[x := Held])) && x !in k.frozen.blocks
  {
  }

  lemma GrowEnd(g: Geometry, s: Image, k: Ledger)
    requires Inv(g, s, k)
    requires EndAddress(g, s.bytes) + g.clusterSize <= g.limit
    ensures var x := EndAddress(g, s.bytes);
            && |s.bytes| <= x && x !in k.own && x !in k.frozen.blocks
            && Inv(g, Grown(g, s), k.(own := k.own[x := Held]))
            && Quiet(g, s, Grown(g, s))
            && SameClusters(g.clusterSize, s.bytes, Grown(g, s).bytes, {})
            && |Grown(g, s).bytes| == x + g.clusterSize
            && Cluster(g.clusterSize, Grown(g, s).bytes, x) == Zeros(g.clusterSize)
  {
    hide LevelOk, LinkedOk, MappedOk, CountedOk, FrozenOk, Contents, SameBlocks, SameAreas, SameClusters, Cluster,
         EndAddress;
    EndAddressOk(g, s.bytes);
    var x := EndAddress(g, s.bytes);
    var s' := Grown(g, s);
    GrowBytes(g, s);
    BytesFrame(g, s, k, s'.bytes, {});
    ContentsFrame(g, s, k, s', {});
    NewCluster(g, s', k, x);
  }

  /** A cluster that is not reserved may change to any role but `Fixed`. */
  lemma ChangeRole(g: Geometry, b: seq<byte>, own: map<nat, Role>, a: nat, r: Role)
    requires 0 < g.clusterSize && OwnedOk(g, b, own)
    requires a in own && !own[a].Fixed? && !r.Fixed?
    ensures OwnedOk(g, b, own[a := r])
    ensures a % g.clusterSize == 0 && a + g.clusterSize <= |b| && !Reserved(g, a)
  {
  }

  // Moving blocks in and out of the caches.

  lemma TopsDistinct(g: Geometry, s: Image, k: Ledger)
    requires Inv(g, s, k)
    ensures DistinctTops(s.l2.top) && DistinctTops(s.rc.top)
  {
  }

  function L2Loaded(g: Geometry, s: Image, i: nat): Image
    requires i < |s.l2.top| && s.l2.top[i] + g.clusterSize <= |s.bytes|
  {
    var block := VecCache(DecodeBlock(s.l2.kind, g.clusterSize, Cluster(g.clusterSize, s.bytes, s.l2.top[i])), false);
    s.(l2 := s.l2.(cache := s.l2.cache[i := block]))
  }

  lemma LoadL2(g: Geometry, s: Image, k: Ledger, i: nat)
    requires Inv(g, s, k) && i < |s.l2.top| && s.l2.top[i] != 0 && i !in s.l2.cache
    ensures Inv(g, L2Loaded(g, s, i), k) && Quiet(g, s, L2Loaded(g, s, i))
  {
    LoadKeeps(g.clusterSize, s.bytes, s.l2, i);
    SameBlocksKeep(g, s, k, L2Loaded(g, s, i));
    ContentsFrame(g, s, k, L2Loaded(g, s, i), {});
  }

  function RcLoaded(g: Geometry, s: Image, t: nat): Image
    requires t < |s.rc.top| && s.rc.top[t] + g.clusterSize <= |s.bytes|
  {
    var block := VecCache(DecodeBlock(s.rc.kind, g.clusterSize, Cluster(g.clusterSize, s.bytes, s.rc.top[t])), false);
    s.(rc := s.rc.(cache := s.rc.cache[t := block]))
  }

  lemma LoadRc(g: Geometry, s: Image, k: Ledger, t: nat)
    requires Inv(g, s, k) && t < |s.rc.top| && s.rc.top[t] != 0 && t !in s.rc.cache
    ensures Inv(g, RcLoaded(g, s, t), k) && Quiet(g, s, RcLoaded(g, s, t))
  {
    LoadKeeps(g.clusterSize, s.bytes, s.rc, t);
    SameBlocksKeep(g, s, k, RcLoaded(g, s, t));
    ContentsFrame(g, s, k, RcLoaded(g, s, t), {});
  }

  function L2Evicted(g: Geometry, s: Image, e: nat): Image
    requires g.clusterSize % 8 == 0 && e in s.l2.cache && CachedOk(g.clusterSize, s.bytes, s.l2, e)
  {
    s.(bytes := WrittenBack(g.clusterSize, s.bytes, s.l2, e), l2 := s.l2.(cache := s.l2.cache - {e}))
  }

  lemma WriteBackL2(g: Geometry, s: Image, k: Ledger, e: nat)
    requires Inv(g, s, k) && e in s.l2.cache
    ensures CachedOk(g.clusterSize, s.bytes, s.l2, e)
    ensures s.l2.cache[e].dirty ==> s.l2.top[e] !in k.frozen.blocks
    ensures var b' := WrittenBack(g.clusterSize, s.bytes, s.l2, e);
            && |b'| == |s.bytes|
            && SameClusters(g.clusterSize, s.bytes, b', {s.l2.top[e]})
            && SameAreas(g, s.bytes, b')
            && LevelOk(g.clusterSize, b', s.rc)
            && SameBlocks(g.clusterSize, s.bytes, s.rc, b', s.rc)
  {
    TopsDistinct(g, s, k);
    WriteBackKeeps(g.clusterSize, s.bytes, s.l2, e);
    var b' := WrittenBack(g.clusterSize, s.bytes, s.l2, e);
    LevelFrame(g.clusterSize, s.bytes, b', s.rc, {s.l2.top[e]});
    if s.l2.cache[e].dirty {
      BlockRoundTrip(s.l2.kind, g.clusterSize, s.l2.cache[e].vec);
      SpliceAreas(g, s.bytes, k.own, s.l2.top[e], s.l2.top[e], EncodeBlock(s.l2.kind, s.l2.cache[e].vec));
    }
  }

  lemma EvictL2(g: Geometry, s: Image, k: Ledger, e: nat)
    requires Inv(g, s, k) && e in s.l2.cache
    ensures CachedOk(g.clusterSize, s.bytes, s.l2, e)
    ensures Inv(g, L2Evicted(g, s, e), k) && Quiet(g, s, L2Evicted(g, s, e))
    ensures SameClusters(g.clusterSize, s.bytes, L2Evicted(g, s, e).bytes, {s.l2.top[e]})
  {
    WriteBackL2(g, s, k, e);
    TopsDistinct(g, s, k);
    EvictKeeps(g.clusterSize, s.bytes, s.l2, e);
    SameBlocksKeep(g, s, k, L2Evicted(g, s, e));
    ContentsFrame(g, s, k, L2Evicted(g, s, e), {s.l2.top[e]});
  }

  function L2Cleaned(g: Geometry, s: Image, e: nat): Image
    requires g.clusterSize % 8 == 0 && e in s.l2.cache && CachedOk(g.clusterSize, s.bytes, s.l2, e)
  {
    s.(bytes := WrittenBack(g.clusterSize, s.bytes, s.l2, e),
       l2 := s.l2.(cache := s.l2.cache[e := s.l2.cache[e].MarkClean()]))
  }

  /** A clean block is still as it was. */
  lemma CleanFrozen(g: Geometry, s: Image, k: Ledger, e: nat)
    requires g.clusterSize % 8 == 0 && FrozenOk(s, k.own, k.frozen) && e in s.l2.cache
    requires CachedOk(g.clusterSize, s.bytes, s.l2, e)
    ensures FrozenOk(L2Cleaned(g, s, e), k.own, k.frozen)
  {
  }

  lemma CleanL2(g: Geometry, s: Image, k: Ledger, e: nat)
    requires Inv(g, s, k) && e in s.l2.cache
    ensures CachedOk(g.clusterSize, s.bytes, s.l2, e)
    ensures Inv(g, L2Cleaned(g, s, e), k) && Quiet(g, s, L2Cleaned(g, s, e))
    ensures |L2Cleaned(g, s, e).bytes| == |s.bytes|
  {
    hide LevelOk, OwnedOk, LinkedOk, CountedOk, FrozenOk, SameBlocks, Contents, SameAreas, CachedOk;
    L2Role(g, s, k, e);
    WriteBackL2(g, s, k, e);
    TopsDistinct(g, s, k);
    CleanKeeps(g.clusterSize, s.bytes, s.l2, e);
    CleanFrozen(g, s, k, e);
    SameBlocksKeep(g, s, k, L2Cleaned(g, s, e));
    ContentsFrame(g, s, k, L2Cleaned(g, s, e), {s.l2.top[e]});
  }

  function RcEvicted(g: Geometry, s: Image, e: nat): Image
    requires g.clusterSize % 8 == 0 && e in s.rc.cache && CachedOk(g.clusterSize, s.bytes, s.rc, e)
  {
    s.(bytes := WrittenBack(g.clusterSize, s.bytes, s.rc, e), rc := s.rc.(cache := s.rc.cache - {e}))
  }

  lemma WriteBackRc(g: Geometry, s: Image, k: Ledger, e: nat)
    requires Inv(g, s, k) && e in s.rc.cache
    ensures CachedOk(g.clusterSize, s.bytes, s.rc, e)
    ensures s.rc.cache[e].dirty ==> s.rc.top[e] !in k.frozen.blocks
    ensures var b' := WrittenBack(g.clusterSize, s.bytes, s.rc, e);
            && |b'| == |s.bytes|
            && SameClusters(g.clusterSize, s.bytes, b', {s.rc.top[e]})
            && SameAreas(g, s.bytes, b')
            && LevelOk(g.clusterSize, b', s.l2)
            && SameBlocks(g.clusterSize, s.bytes, s.l2, b', s.l2)
  {
    TopsDistinct(g, s, k);
    WriteBackKeeps(g.clusterSize, s.bytes, s.rc, e);
    var b' := WrittenBack(g.clusterSize, s.bytes, s.rc, e);
    LevelFrame(g.clusterSize, s.bytes, b', s.l2, {s.rc.top[e]});
    if s.rc.cache[e].dirty {
      BlockRoundTrip(s.rc.kind, g.clusterSize, s.rc.cache[e].vec);
      SpliceAreas(g, s.bytes, k.own, s.rc.top[e], s.rc.top[e], EncodeBlock(s.rc.kind, s.rc.cache[e].vec));
    }
  }

  lemma EvictRc(g: Geometry, s: Image, k: Ledger, e: nat)
    requires Inv(g, s, k) && e in s.rc.cache
    ensures CachedOk(g.clusterSize, s.bytes, s.rc, e)
    ensures Inv(g, RcEvicted(g, s, e), k) && Quiet(g, s, RcEvicted(g, s, e))
    ensures SameClusters(g.clusterSize, s.bytes, RcEvicted(g, s, e).bytes, {s.rc.top[e]})
  {
    WriteBackRc(g, s, k, e);
    TopsDistinct(g, s, k);
    EvictKeeps(g.clusterSize, s.bytes, s.rc, e);
    SameBlocksKeep(g, s, k, RcEvicted(g, s, e));
    ContentsFrame(g, s, k, RcEvicted(g, s, e), {s.rc.top[e]});
  }

  // Linking a new cluster into a table.

  lemma OwnedIsPointer(g: Geometry, b: seq<byte>, own: map<nat, Role>, a: nat)
    requires GeometryOk(g) && OwnedOk(g, b, own) && a in own
    ensures IsPointer(a)
  {
    AlignedWeaken(a, g.clusterSize, 512);
  }

  function L2Linked(s: Image, i: nat, x: nat): Image
    requires i < |s.l2.top|
  {
    s.(l2 := s.l2.(top := s.l2.top[i := x]))
  }

  lemma NotCached(cs: nat, b: seq<byte>, lv: Level, i: nat)
    requires LevelOk(cs, b, lv) && i < |lv.top| && lv.top[i] == 0
    ensures i !in lv.cache
  {
    assert i in lv.cache ==> CachedOk(cs, b, lv, i);
  }

  lemma HeldFacts(g: Geometry, s: Image, k: Ledger, x: nat)
    requires Inv(g, s, k) && x in k.own && k.own[x] == Held
    ensures x != 0 && x !in k.frozen.blocks && 0 in k.own && k.own[0].Fixed?
  {
    hide ShapeOk, LinkedOk, CountedOk;
    InvShape(g, s, k);
    assert 0 % g.clusterSize == 0 && Reserved(g, 0);
  }

  lemma LinkL2Places(s: Image, k: Ledger, i: nat, x: nat)
    requires PlacesOk(s, k.own) && FrozenOk(s, k.own, k.frozen)
    requires i < |s.l2.top| && s.l2.top[i] == 0 && x in k.own && k.own[x] == Held && 0 in k.own && k.own[0].Fixed?
    ensures var own' := k.own[x := L2Table(i)];
            PlacesOk(L2Linked(s, i, x), own') && FrozenOk(L2Linked(s, i, x), own', k.frozen)
  {
    forall a | a in k.own && a != x
      ensures InPlace(L2Linked(s, i, x), a, k.own[a])
    {
      assert InPlace(s, a, k.own[a]);
    }
  }

  lemma LinkRcPlaces(s: Image, k: Ledger, t: nat, x: nat)
    requires PlacesOk(s, k.own) && FrozenOk(s, k.own, k.frozen)
    requires t < |s.rc.top| && s.rc.top[t] == 0 && x in k.own && k.own[x] == Held && 0 in k.own && k.own[0].Fixed?
    ensures var own' := k.own[x := RefBlock(t)];
            PlacesOk(RcLinked(s, t, x), own') && FrozenOk(RcLinked(s, t, x), own', k.frozen)
  {
    forall a | a in k.own && a != x
      ensures InPlace(RcLinked(s, t, x), a, k.own[a])
    {
      assert InPlace(s, a, k.own[a]);
    }
  }

  /** A zeroed cluster becomes the L2 table of an empty L1 entry; its count is still to be set. */
  lemma LinkL2(g: Geometry, s: Image, k: Ledger, i: nat, x: nat)
    requires Inv(g, s, k) && i < |s.l2.top| && s.l2.top[i] == 0
    requires x in k.own && k.own[x] == Held && x + g.clusterSize <= |s.bytes|
    requires Cluster(g.clusterSize, s.bytes, x) == Zeros(g.clusterSize)
    ensures Inv(g, L2Linked(s, i, x), k.(own := k.own[x := L2Table(i)], pending := k.pending + {x}))
    ensures Quiet(g, s, L2Linked(s, i, x))
    ensures i !in s.l2.cache && x != 0 && x !in k.frozen.blocks
  {
    hide OwnedOk, PlacesOk, FrozenOk, MappedOk, CountedOk, LevelOk, SameBlocks, Contents, Plain, SameAreas, Reserved;
    AreasSelf(g, s, k);
    SameBlocksRefl(g.clusterSize, s.bytes, s.rc);
    var s', cs := L2Linked(s, i, x), g.clusterSize;
    NotCached(cs, s.bytes, s.l2, i);
    HeldFacts(g, s, k, x);
    ChangeRole(g, s.bytes, k.own, x, L2Table(i));
    LinkL2Places(s, k, i, x);
    LinkBlocks(cs, s.bytes, s.l2, i, x);
    ContentsFrame(g, s, k, s', {});
    RelinkedMap(g, s, k, s', k.own[x := L2Table(i)]);
    RelinkedCounts(g, s, k, s', k.(own := k.own[x := L2Table(i)], pending := k.pending + {x}));
  }

  /** Pointing an empty entry at a block of zeros changes no lookup. */
  lemma LinkBlocks(cs: nat, b: seq<byte>, lv: Level, i: nat, x: nat)
    requires LevelOk(cs, b, lv) && i < |lv.top| && lv.top[i] == 0 && i !in lv.cache
    requires x % cs == 0 && x + cs <= |b| && Cluster(cs, b, x) == Zeros(cs)
    ensures LevelOk(cs, b, lv.(top := lv.top[i := x]))
    ensures SameBlocks(cs, b, lv, b, lv.(top := lv.top[i := x]))
  {
    hide Plain, DecodeBlock;
    BlockOfZeros(lv.kind, cs);
    ZerosPlain(lv.kind, cs);
    var lv' := lv.(top := lv.top[i := x]);
    forall e | e in lv'.cache
      ensures CachedOk(cs, b, lv', e)
    {
      assert CachedOk(cs, b, lv, e);
    }
  }

  /** Data clusters keep their role, so the mapping stays owned. */
  lemma RelinkedMap(g: Geometry, s: Image, k: Ledger, s': Image, own': map<nat, Role>)
    requires Inv(g, s, k)
    requires SameBlocks(g.clusterSize, s.bytes, s.l2, s'.bytes, s'.l2)
    requires forall a :: a in k.own && k.own[a].Data? ==> a in own' && own'[a] == k.own[a]
    ensures MappedOk(g, s', own')
  {
    forall i: nat, j: nat
      ensures var d := Entry(g.clusterSize, s'.bytes, s'.l2, i, j);
              d != 0 ==> d in own' && own'[d] == Data(i, j)
    {
      assert Block(g.clusterSize, s'.bytes, s'.l2, i) == Block(g.clusterSize, s.bytes, s.l2, i);
      assert Entry(g.clusterSize, s'.bytes, s'.l2, i, j) == Entry(g.clusterSize, s.bytes, s.l2, i, j);
    }
  }

  /** No cluster becomes live without its count being set or pending. */
  lemma RelinkedCounts(g: Geometry, s: Image, k: Ledger, s': Image, k': Ledger)
    requires Inv(g, s, k)
    requires SameBlocks(g.clusterSize, s.bytes, s.rc, s'.bytes, s'.rc)
    requires forall a :: a in k'.own && Live(k'.own[a]) && a !in k'.pending ==>
               a in k.own && Live(k.own[a]) && a !in k.pending
    ensures CountedOk(g, s', k'.own, k'.pending)
  {
    forall a | a in k'.own && Live(k'.own[a]) && a !in k'.pending
      ensures Count(g, s'.bytes, s'.rc, a) >= 1
    {
      SameCount(g, s.bytes, s.rc, s'.bytes, s'.rc, a);
    }
  }

  function L2Fresh(g: Geometry, s: Image, i: nat): Image {
    s.(l2 := s.l2.(cache := s.l2.cache[i := NewBlock(g.clusterSize / 8)]))
  }

  /** The new, empty L2 table enters the cache as a dirty block. */
  lemma FreshL2(g: Geometry, s: Image, k: Ledger, i: nat)
    requires Inv(g, s, k) && i < |s.l2.top| && s.l2.top[i] != 0 && i !in s.l2.cache
    requires s.l2.top[i] + g.clusterSize <= |s.bytes|
    requires Cluster(g.clusterSize, s.bytes, s.l2.top[i]) == Zeros(g.clusterSize)
    requires s.l2.top[i] !in k.frozen.blocks
    ensures Inv(g, L2Fresh(g, s, i), k) && Quiet(g, s, L2Fresh(g, s, i))
  {
    BlockOfZeros(Pointers, g.clusterSize);
    FreshBlocks(g.clusterSize, s.bytes, s.l2, i);
    ContentsFrame(g, s, k, L2Fresh(g, s, i), {});
    SameBlocksKeep(g, s, k, L2Fresh(g, s, i));
  }

  lemma FreshBlocks(cs: nat, b: seq<byte>, lv: Level, i: nat)
    requires LevelOk(cs, b, lv) && i < |lv.top| && lv.top[i] != 0 && i !in lv.cache
    requires lv.top[i] + cs <= |b|
    requires DecodeBlock(lv.kind, cs, Cluster(cs, b, lv.top[i])) == ZeroBlock(PerBlock(lv.kind, cs))
    ensures var lv' := lv.(cache := lv.cache[i := NewBlock(PerBlock(lv.kind, cs))]);
            LevelOk(cs, b, lv') && SameBlocks(cs, b, lv, b, lv')
  {
    var lv' := lv.(cache := lv.cache[i := NewBlock(PerBlock(lv.kind, cs))]);
    forall e | e in lv'.cache
      ensures CachedOk(cs, b, lv', e)
    {
      if e != i { assert CachedOk(cs, b, lv, e); }
    }
  }

  /** Moving a clean cached block to a new home and marking it dirty changes no lookup. */
  lemma MoveBlocks(cs: nat, b: seq<byte>, lv: Level, i: nat, x: nat)
    requires LevelOk(cs, b, lv) && i in lv.cache && i < |lv.top|
    requires x % cs == 0 && x != 0 && x + cs <= |b|
    ensures var lv' := lv.(top := lv.top[i := x], cache := lv.cache[i := VecCache(lv.cache[i].vec, true)]);
            LevelOk(cs, b, lv') && SameBlocks(cs, b, lv, b, lv')
  {
    var lv' := lv.(top := lv.top[i := x], cache := lv.cache[i := VecCache(lv.cache[i].vec, true)]);
    forall e | e in lv'.cache
      ensures CachedOk(cs, b, lv', e)
    {
      assert CachedOk(cs, b, lv, e);
    }
  }

  function L2Moved(s: Image, i: nat, x: nat): Image
    requires i < |s.l2.top| && i in s.l2.cache
  {
    s.(l2 := s.l2.(top := s.l2.top[i := x], cache := s.l2.cache[i := VecCache(s.l2.cache[i].vec, true)]),
       unref := s.unref + [s.l2.top[i]])
  }

  /** A clean L2 table that is about to change gets a new cluster; the old one is queued. */
  lemma MoveL2(g: Geometry, s: Image, k: Ledger, i: nat, x: nat)
    requires Inv(g, s, k) && i in s.l2.cache && !s.l2.cache[i].dirty
    requires x in k.own && k.own[x] == Held
    ensures i < |s.l2.top| && s.l2.top[i] in k.own && k.own[s.l2.top[i]] == L2Table(i)
    ensures var prev := s.l2.top[i];
            Inv(g, L2Moved(s, i, x), k.(own := k.own[prev := Unref(|s.unref|)][x := L2Table(i)],
                                        pending := k.pending + {x}))
    ensures Quiet(g, s, L2Moved(s, i, x))
  {
    hide OwnedOk, LevelOk, PlacesOk, MappedOk, CountedOk, FrozenOk, Contents, SameBlocks, SameAreas;
    AreasSelf(g, s, k);
    SameBlocksRefl(g.clusterSize, s.bytes, s.rc);
    L2Role(g, s, k, i);
    var prev := s.l2.top[i];
    var s' := L2Moved(s, i, x);
    var own' := k.own[prev := Unref(|s.unref|)][x := L2Table(i)];
    ChangeRole(g, s.bytes, k.own, prev, Unref(|s.unref|));
    ChangeRole(g, s.bytes, k.own[prev := Unref(|s.unref|)], x, L2Table(i));
    MoveBlocks(g.clusterSize, s.bytes, s.l2, i, x);
    MoveL2Places(s, k, i, x);
    ContentsFrame(g, s, k, s', {});
    RelinkedMap(g, s, k, s', own');
    RelinkedCounts(g, s, k, s', k.(own := own', pending := k.pending + {x}));
  }

  lemma MoveL2Places(s: Image, k: Ledger, i: nat, x: nat)
    requires PlacesOk(s, k.own) && FrozenOk(s, k.own, k.frozen)
    requires i in s.l2.cache && i < |s.l2.top| && s.l2.top[i] != 0
    requires x in k.own && k.own[x] == Held
    ensures var own' := k.own[s.l2.top[i] := Unref(|s.unref|)][x := L2Table(i)];
            && PlacesOk(L2Moved(s, i, x), own')
            && FrozenOk(L2Moved(s, i, x), own', k.frozen)
  {
  }

  function DataMapped(s: Image, i: nat, j: nat, d: nat): Image
    requires i in s.l2.cache && j < |s.l2.cache[i].vec|
  {
    s.(l2 := s.l2.(cache := s.l2.cache[i := s.l2.cache[i].Set(j, d)]))
  }

  /** Setting an entry of a dirty block changes that entry and no other. */
  lemma SetEntry(cs: nat, b: seq<byte>, lv: Level, i: nat, j: nat, v: nat)
    requires LevelOk(cs, b, lv) && i in lv.cache && j < |lv.cache[i].vec| && Storable(lv.kind, v)
    ensures var lv' := lv.(cache := lv.cache[i := lv.cache[i].Set(j, v)]);
            && LevelOk(cs, b, lv')
            && (forall i': nat, j': nat :: Entry(cs, b, lv', i', j') ==
                 if i' == i && j' == j then v else Entry(cs, b, lv, i', j'))
  {
    var lv' := lv.(cache := lv.cache[i := lv.cache[i].Set(j, v)]);
    forall e | e in lv'.cache
      ensures CachedOk(cs, b, lv', e)
    {
      assert CachedOk(cs, b, lv, e);
    }
  }

  /** A held cluster whose count is set becomes the data cluster of an empty entry. */
  lemma MapData(g: Geometry, s: Image, k: Ledger, i: nat, j: nat, d: nat)
    requires Inv(g, s, k) && IsDirty(s.l2.cache, i) && j < |s.l2.cache[i].vec|
    requires Entry(g.clusterSize, s.bytes, s.l2, i, j) == 0
    requires d in k.own && k.own[d] == Held
    requires Count(g, s.bytes, s.rc, d) >= 1
    ensures Inv(g, DataMapped(s, i, j, d), k.(own := k.own[d := Data(i, j)]))
    ensures forall i': nat, j': nat ::
              Entry(g.clusterSize, s.bytes, DataMapped(s, i, j, d).l2, i', j') ==
              if i' == i && j' == j then d else Entry(g.clusterSize, s.bytes, s.l2, i', j')
  {
    hide OwnedOk, LevelOk, PlacesOk, MappedOk, CountedOk, FrozenOk;
    OwnedIsPointer(g, s.bytes, k.own, d);
    ChangeRole(g, s.bytes, k.own, d, Data(i, j));
    SetEntry(g.clusterSize, s.bytes, s.l2, i, j, d);
    RemapEntry(g, s, k.own, DataMapped(s, i, j, d), i, j, d, d, Data(i, j));
    MapDataPlaces(s, k, i, j, d);
    MapDataCounts(g, s, k, i, j, d);
  }

  /** One entry and the role of one cluster change together. */
  lemma RemapEntry(g: Geometry, s: Image, own: map<nat, Role>, s': Image, i: nat, j: nat, v: nat, d: nat, r: Role)
    requires MappedOk(g, s, own) && d in own
    requires forall i': nat, j': nat ::
               Entry(g.clusterSize, s'.bytes, s'.l2, i', j') ==
               if i' == i && j' == j then v else Entry(g.clusterSize, s.bytes, s.l2, i', j')
    requires own[d].Held? || own[d] == Data(i, j)
    requires v == 0 || (v == d && r == Data(i, j))
    ensures MappedOk(g, s', own[d := r])
  {
  }

  lemma MapDataPlaces(s: Image, k: Ledger, i: nat, j: nat, d: nat)
    requires PlacesOk(s, k.own) && FrozenOk(s, k.own, k.frozen)
    requires IsDirty(s.l2.cache, i) && j < |s.l2.cache[i].vec|
    requires d in k.own && k.own[d] == Held
    ensures var own' := k.own[d := Data(i, j)];
            && PlacesOk(DataMapped(s, i, j, d), own')
            && FrozenOk(DataMapped(s, i, j, d), own', k.frozen)
  {
  }

  lemma MapDataCounts(g: Geometry, s: Image, k: Ledger, i: nat, j: nat, d: nat)
    requires 2 <= g.clusterSize && CountedOk(g, s, k.own, k.pending)
    requires i in s.l2.cache && j < |s.l2.cache[i].vec|
    requires Count(g, s.bytes, s.rc, d) >= 1
    ensures CountedOk(g, DataMapped(s, i, j, d), k.own[d := Data(i, j)], k.pending)
  {
  }

  function Unmapped(s: Image, i: nat, j: nat): Image
    requires i in s.l2.cache && j < |s.l2.cache[i].vec|
  {
    s.(l2 := s.l2.(cache := s.l2.cache[i := s.l2.cache[i].Set(j, 0)]))
  }

  /**
   * A discard clears the entry in place. The table is edited without moving it, so it no longer
   * counts as frozen.
   */
  lemma Unmap(g: Geometry, s: Image, k: Ledger, i: nat, j: nat, d: nat)
    requires Inv(g, s, k) && i in s.l2.cache && i < |s.l2.top| && j < |s.l2.cache[i].vec|
    requires d == s.l2.cache[i].vec[j] && d != 0
    ensures d in k.own && k.own[d] == Data(i, j)
    ensures Inv(g, Unmapped(s, i, j), k.(own := k.own[d := Dropped], frozen := k.frozen.Without(s.l2.top[i])))
    ensures forall i': nat, j': nat ::
              Entry(g.clusterSize, s.bytes, Unmapped(s, i, j).l2, i', j') ==
              if i' == i && j' == j then 0 else Entry(g.clusterSize, s.bytes, s.l2, i', j')
  {
    assert Entry(g.clusterSize, s.bytes, s.l2, i, j) == d;
    assert d in k.own && k.own[d] == Data(i, j);
    hide OwnedOk, LevelOk, PlacesOk, MappedOk, CountedOk, FrozenOk;
    ChangeRole(g, s.bytes, k.own, d, Dropped);
    SetEntry(g.clusterSize, s.bytes, s.l2, i, j, 0);
    RemapEntry(g, s, k.own, Unmapped(s, i, j), i, j, 0, d, Dropped);
    UnmapPlaces(s, k, i, j, d);
    RelinkedCounts(g, s, k, Unmapped(s, i, j), k.(own := k.own[d := Dropped]));
  }

  lemma UnmapPlaces(s: Image, k: Ledger, i: nat, j: nat, d: nat)
    requires PlacesOk(s, k.own) && FrozenOk(s, k.own, k.frozen)
    requires i in s.l2.cache && i < |s.l2.top| && j < |s.l2.cache[i].vec|
    requires d in k.own && k.own[d] == Data(i, j)
    ensures var own' := k.own[d := Dropped];
            && PlacesOk(Unmapped(s, i, j), own')
            && FrozenOk(Unmapped(s, i, j), own', k.frozen.Without(s.l2.top[i]))
  {
  }

  /** A dropped cluster is queued on `unref_clusters`. */
  lemma QueueDropped(g: Geometry, s: Image, k: Ledger, a: nat)
    requires Inv(g, s, k) && a in k.own && k.own[a] == Dropped
    ensures Inv(g, s.(unref := s.unref + [a]), k.(own := k.own[a := Unref(|s.unref|)]))
  {
    QueueDroppedPlaces(s, k, a);
    RelinkedMap(g, s, k, s.(unref := s.unref + [a]), k.own[a := Unref(|s.unref|)]);
  }

  lemma QueueDroppedPlaces(s: Image, k: Ledger, a: nat)
    requires PlacesOk(s, k.own) && FrozenOk(s, k.own, k.frozen) && a in k.own && k.own[a] == Dropped
    ensures var own' := k.own[a := Unref(|s.unref|)];
            PlacesOk(s.(unref := s.unref + [a]), own') && FrozenOk(s.(unref := s.unref + [a]), own', k.frozen)
  {
  }

  // Reference counts.

  function RcLinked(s: Image, t: nat, x: nat): Image
    requires t < |s.rc.top|
  {
    s.(rc := s.rc.(top := s.rc.top[t := x]))
  }

  /** A zeroed cluster becomes the refcount block of an empty refcount table entry. */
  lemma LinkRc(g: Geometry, s: Image, k: Ledger, t: nat, x: nat)
    requires Inv(g, s, k) && t < |s.rc.top| && s.rc.top[t] == 0
    requires x in k.own && k.own[x] == Held && x + g.clusterSize <= |s.bytes|
    requires Cluster(g.clusterSize, s.bytes, x) == Zeros(g.clusterSize)
    ensures Inv(g, RcLinked(s, t, x), k.(own := k.own[x := RefBlock(t)], pending := k.pending + {x}))
    ensures Quiet(g, s, RcLinked(s, t, x))
    ensures t !in s.rc.cache && x != 0 && x !in k.frozen.blocks
  {
    hide OwnedOk, PlacesOk, FrozenOk, MappedOk, CountedOk, LevelOk, SameBlocks, Contents, Plain, SameAreas, Reserved;
    AreasSelf(g, s, k);
    SameBlocksRefl(g.clusterSize, s.bytes, s.l2);
    var s', cs := RcLinked(s, t, x), g.clusterSize;
    NotCached(cs, s.bytes, s.rc, t);
    HeldFacts(g, s, k, x);
    ChangeRole(g, s.bytes, k.own, x, RefBlock(t));
    LinkRcPlaces(s, k, t, x);
    LinkBlocks(cs, s.bytes, s.rc, t, x);
    ContentsFrame(g, s, k, s', {});
    RelinkedMap(g, s, k, s', k.own[x := RefBlock(t)]);
    RelinkedCounts(g, s, k, s', k.(own := k.own[x := RefBlock(t)], pending := k.pending + {x}));
  }

  function RcFresh(g: Geometry, s: Image, t: nat): Image {
    s.(rc := s.rc.(cache := s.rc.cache[t := NewBlock(g.clusterSize / 2)]))
  }

  lemma FreshRc(g: Geometry, s: Image, k: Ledger, t: nat)
    requires Inv(g, s, k) && t < |s.rc.top| && s.rc.top[t] != 0 && t !in s.rc.cache
    requires s.rc.top[t] + g.clusterSize <= |s.bytes|
    requires Cluster(g.clusterSize, s.bytes, s.rc.top[t]) == Zeros(g.clusterSize)
    requires s.rc.top[t] !in k.frozen.blocks
    ensures Inv(g, RcFresh(g, s, t), k) && Quiet(g, s, RcFresh(g, s, t))
  {
    BlockOfZeros(Counts, g.clusterSize);
    FreshBlocks(g.clusterSize, s.bytes, s.rc, t);
    ContentsFrame(g, s, k, RcFresh(g, s, t), {});
    SameBlocksKeep(g, s, k, RcFresh(g, s, t));
  }

  function RcMoved(s: Image, t: nat, x: nat): Image
    requires t < |s.rc.top| && t in s.rc.cache
  {
    s.(rc := s.rc.(top := s.rc.top[t := x], cache := s.rc.cache[t := VecCache(s.rc.cache[t].vec, true)]))
  }

  /** A clean refcount block that is about to change gets a new cluster; the old one is dropped. */
  lemma MoveRc(g: Geometry, s: Image, k: Ledger, t: nat, x: nat)
    requires Inv(g, s, k) && t in s.rc.cache && !s.rc.cache[t].dirty
    requires x in k.own && k.own[x] == Held
    ensures t < |s.rc.top| && s.rc.top[t] in k.own && k.own[s.rc.top[t]] == RefBlock(t) && s.rc.top[t] != x
    ensures Inv(g, RcMoved(s, t, x), k.(own := k.own[s.rc.top[t] := Dropped][x := RefBlock(t)],
                                        pending := k.pending + {x}))
    ensures Quiet(g, s, RcMoved(s, t, x))
  {
    hide OwnedOk, LevelOk, PlacesOk, MappedOk, CountedOk, FrozenOk, Contents, SameBlocks, SameAreas;
    AreasSelf(g, s, k);
    SameBlocksRefl(g.clusterSize, s.bytes, s.l2);
    RcRole(g, s, k, t);
    var s' := RcMoved(s, t, x);
    var own' := k.own[s.rc.top[t] := Dropped][x := RefBlock(t)];
    var prev := s.rc.top[t];
    ChangeRole(g, s.bytes, k.own, prev, Dropped);
    ChangeRole(g, s.bytes, k.own[prev := Dropped], x, RefBlock(t));
    MoveBlocks(g.clusterSize, s.bytes, s.rc, t, x);
    MoveRcPlaces(s, k, t, x);
    ContentsFrame(g, s, k, s', {});
    RelinkedMap(g, s, k, s', own');
    RelinkedCounts(g, s, k, s', k.(own := own', pending := k.pending + {x}));
  }

  lemma MoveRcPlaces(s: Image, k: Ledger, t: nat, x: nat)
    requires PlacesOk(s, k.own) && FrozenOk(s, k.own, k.frozen)
    requires t in s.rc.cache && t < |s.rc.top| && s.rc.top[t] != 0
    requires x in k.own && k.own[x] == Held
    ensures var own' := k.own[s.rc.top[t] := Dropped][x := RefBlock(t)];
            && PlacesOk(RcMoved(s, t, x), own')
            && FrozenOk(RcMoved(s, t, x), own', k.frozen)
  {
  }

  function CountSet(g: Geometry, s: Image, a: nat, c: nat): Image
    requires 2 <= g.clusterSize && RefIndex(g, a).0 in s.rc.cache
    requires RefIndex(g, a).1 < |s.rc.cache[RefIndex(g, a).0].vec|
  {
    var (t, n) := RefIndex(g, a);
    s.(rc := s.rc.(cache := s.rc.cache[t := s.rc.cache[t].Set(n, c)]))
  }

  /** Two clusters never share a refcount slot. */
  lemma SlotsDistinct(g: Geometry, a: nat, a': nat)
    requires 2 <= g.clusterSize && a % g.clusterSize == 0 && a' % g.clusterSize == 0
    requires RefIndex(g, a) == RefIndex(g, a')
    ensures a == a'
  {
    var cs, n := g.clusterSize, g.clusterSize / 2;
    var q, q' := a / cs, a' / cs;
    assert q == n * (q / n) + q % n && q' == n * (q' / n) + q' % n;
    assert a == cs * q && a' == cs * q';
  }

  /** Every cluster below the limit has a refcount slot. */
  lemma SlotExists(g: Geometry, a: nat)
    requires 512 <= g.clusterSize && CoverageOk(g) && a % g.clusterSize == 0 && a + g.clusterSize <= g.limit
    ensures RefIndex(g, a).0 < g.refTableLen && RefIndex(g, a).1 < g.clusterSize / 2
  {
    var cs, n := g.clusterSize, g.clusterSize / 2;
    var q := a / cs;
    assert (q + 1) * cs == a + cs;
    MulCancel(q + 1, g.refTableLen * n, cs);
    DivBelow(q, g.refTableLen, n);
  }

  /** The count of `a` in a dirty block is set; every other count stays. */
  lemma SizeOk(g: Geometry, s: Image, k: Ledger)
    requires Inv(g, s, k)
    ensures 512 <= g.clusterSize && g.clusterSize % 8 == 0
  {
  }

  lemma CountIs(g: Geometry, b: seq<byte>, rc: Level, a: nat)
    requires 2 <= g.clusterSize
    ensures Count(g, b, rc, a) == Entry(g.clusterSize, b, rc, RefIndex(g, a).0, RefIndex(g, a).1)
  {
  }

  lemma SetCount(g: Geometry, s: Image, k: Ledger, a: nat, c: nat)
    requires Inv(g, s, k) && a % g.clusterSize == 0 && c < 0x1_0000
    requires IsDirty(s.rc.cache, RefIndex(g, a).0) && RefIndex(g, a).1 < |s.rc.cache[RefIndex(g, a).0].vec|
    ensures Inv(g, CountSet(g, s, a, c), k.(pending := if c == 0 then k.pending + {a} else k.pending - {a}))
    ensures forall a': nat :: a' % g.clusterSize == 0 ==>
              Count(g, s.bytes, CountSet(g, s, a, c).rc, a') == if a' == a then c else Count(g, s.bytes, s.rc, a')
  {
    hide LevelOk, PlacesOk, MappedOk, LinkedOk, FrozenOk, RefIndex, Count, Entry;
    SizeOk(g, s, k);
    var (t, n) := RefIndex(g, a);
    var s' := CountSet(g, s, a, c);
    SetEntry(g.clusterSize, s.bytes, s.rc, t, n, c);
    forall a': nat | a' % g.clusterSize == 0
      ensures Count(g, s.bytes, s'.rc, a') == if a' == a then c else Count(g, s.bytes, s.rc, a')
    {
      CountIs(g, s.bytes, s.rc, a');
      CountIs(g, s.bytes, s'.rc, a');
      if RefIndex(g, a') == RefIndex(g, a) { SlotsDistinct(g, a, a'); }
    }
    SetCountKeeps(g, s, k, a, c);
  }

  lemma SetCountKeeps(g: Geometry, s: Image, k: Ledger, a: nat, c: nat)
    requires Inv(g, s, k)
    requires IsDirty(s.rc.cache, RefIndex(g, a).0) && RefIndex(g, a).1 < |s.rc.cache[RefIndex(g, a).0].vec|
    ensures LinkedOk(g, CountSet(g, s, a, c), k.own)
    ensures FrozenOk(CountSet(g, s, a, c), k.own, k.frozen)
  {
  }

  lemma L2Role(g: Geometry, s: Image, k: Ledger, i: nat)
    requires Inv(g, s, k) && i in s.l2.cache
    ensures i < |s.l2.top| && s.l2.top[i] != 0 && s.l2.top[i] in k.own && k.own[s.l2.top[i]] == L2Table(i)
    ensures |s.l2.cache[i].vec| == g.clusterSize / 8
  {
    assert CachedOk(g.clusterSize, s.bytes, s.l2, i);
  }

  lemma RcRole(g: Geometry, s: Image, k: Ledger, t: nat)
    requires Inv(g, s, k) && t in s.rc.cache
    ensures t < |s.rc.top| && s.rc.top[t] != 0 && s.rc.top[t] in k.own && k.own[s.rc.top[t]] == RefBlock(t)
    ensures |s.rc.cache[t].vec| == g.clusterSize / 2
  {
    assert CachedOk(g.clusterSize, s.bytes, s.rc, t);
  }
}
