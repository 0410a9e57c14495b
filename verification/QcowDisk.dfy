/** How the steps on an open image show on the virtual disk, and how tables are committed. */
module QcowDisk {
  import opened Arithmetic
  import opened HostBytes
  import opened CachedTables
  import opened QcowImage
  import opened QcowSteps

  // The virtual disk.

  /** Two virtual clusters never share an L2 entry. */
  lemma IndexInjective(g: Geometry, c: nat, c': nat)
    requires 8 <= g.clusterSize && MapIndex(g, c) == MapIndex(g, c')
    ensures c == c'
  {
    var n := g.clusterSize / 8;
    assert c == n * (c / n) + c % n && c' == n * (c' / n) + c' % n;
  }

  /** Every virtual cluster of the disk has an L1 entry. */
  lemma IndexInRange(g: Geometry, v: nat)
    requires GeometryOk(g) && CoverageOk(g) && v < g.size
    ensures MapIndex(g, VirtualCluster(g, v)).0 < g.l1Len && MapIndex(g, VirtualCluster(g, v)).1 < g.clusterSize / 8
  {
    var c := VirtualCluster(g, v);
    BelowCeil(v, g.size, g.clusterSize);
    BelowCeil(c, CeilDiv(g.size, g.clusterSize), g.clusterSize / 8);
  }

  lemma BelowCeil(a: nat, b: nat, n: nat)
    requires 0 < n && a < b
    ensures a / n < CeilDiv(b, n)
  {
    DivMonotone(a, b, n);
    assert a == n * (a / n) + a % n && b == n * (b / n) + b % n;
  }

  /** Only the virtual cluster whose entry changed can read differently. */
  ghost predicate EntryChanged(g: Geometry, s: Image, s': Image, c: nat, a: nat)
    requires 8 <= g.clusterSize
  {
    forall i: nat, j: nat ::
      Entry(g.clusterSize, s'.bytes, s'.l2, i, j) ==
      if (i, j) == MapIndex(g, c) then a else Entry(g.clusterSize, s.bytes, s.l2, i, j)
  }

  lemma ChangedByte(g: Geometry, s: Image, k: Ledger, s': Image, c: nat, a: nat, v: nat)
    requires 8 <= g.clusterSize && DataOk(g.clusterSize, s.bytes, k.own) && MappedOk(g, s, k.own)
    requires EntryChanged(g, s, s', c, a)
    requires SameClusters(g.clusterSize, s.bytes, s'.bytes, {})
    ensures VirtualCluster(g, v) != c ==> ByteAt(g, s'.bytes, s'.l2, v) == ByteAt(g, s.bytes, s.l2, v)
    ensures VirtualCluster(g, v) == c ==> ByteAt(g, s'.bytes, s'.l2, v) == ByteIn(s'.bytes, a, ClusterOffset(g, v))
  {
    var c', off := VirtualCluster(g, v), ClusterOffset(g, v);
    ChangedEntry(g, s, s', c, a, c');
    if c' != c {
      SameByte(g.clusterSize, s.bytes, s'.bytes, k.own, {}, MapEntry(g, s.bytes, s.l2, c'), off);
    }
  }

  lemma ChangedEntry(g: Geometry, s: Image, s': Image, c: nat, a: nat, c': nat)
    requires 8 <= g.clusterSize && EntryChanged(g, s, s', c, a)
    ensures MapEntry(g, s'.bytes, s'.l2, c') == if c' == c then a else MapEntry(g, s.bytes, s.l2, c')
  {
    if MapIndex(g, c') == MapIndex(g, c) { IndexInjective(g, c, c'); }
    var (i, j) := MapIndex(g, c');
    assert MapEntry(g, s'.bytes, s'.l2, c') == Entry(g.clusterSize, s'.bytes, s'.l2, i, j);
  }

  /** Mapping a zeroed cluster where none was mapped shows nowhere. */
  lemma MapZeroContents(g: Geometry, s: Image, k: Ledger, s': Image, c: nat, a: nat)
    requires Inv(g, s, k) && EntryChanged(g, s, s', c, a) && s'.bytes == s.bytes
    requires MapEntry(g, s.bytes, s.l2, c) == 0
    requires a + g.clusterSize <= |s.bytes| && Cluster(g.clusterSize, s.bytes, a) == Zeros(g.clusterSize)
    ensures Contents(g, s'.bytes, s'.l2) == Contents(g, s.bytes, s.l2)
  {
    DataInFile(g, s.bytes, k.own);
    forall v: nat | v < g.size
      ensures ByteAt(g, s'.bytes, s'.l2, v) == ByteAt(g, s.bytes, s.l2, v)
    {
      ChangedByte(g, s, k, s', c, a, v);
      ZeroByte(g, s.bytes, a, ClusterOffset(g, v));
    }
  }

  lemma ZeroByte(g: Geometry, b: seq<byte>, a: nat, off: nat)
    requires a + g.clusterSize <= |b| && off < g.clusterSize
    requires Cluster(g.clusterSize, b, a) == Zeros(g.clusterSize)
    ensures ByteIn(b, a, off) == 0
  {
    assert Cluster(g.clusterSize, b, a)[off] == 0;
  }

  /** Clearing an entry makes its virtual cluster read as zero, and nothing else change. */
  lemma UnmapContents(g: Geometry, s: Image, k: Ledger, s': Image, c: nat)
    requires Inv(g, s, k) && EntryChanged(g, s, s', c, 0)
    requires SameClusters(g.clusterSize, s.bytes, s'.bytes, {})
    ensures forall v :: 0 <= v < g.size ==>
              Contents(g, s'.bytes, s'.l2)[v] ==
              if VirtualCluster(g, v) == c then 0 else Contents(g, s.bytes, s.l2)[v]
  {
    DataInFile(g, s.bytes, k.own);
    forall v: nat | v < g.size
      ensures ByteAt(g, s'.bytes, s'.l2, v) == if VirtualCluster(g, v) == c then 0 else ByteAt(g, s.bytes, s.l2, v)
    {
      ChangedByte(g, s, k, s', c, 0, v);
    }
  }

  function DataWritten(s: Image, off: nat, d: seq<byte>): Image
    requires off + |d| <= |s.bytes|
  {
    s.(bytes := Splice(s.bytes, off, d))
  }

  /** Writing inside a mapped data cluster is writing the virtual disk at that place. */
  lemma WriteData(g: Geometry, s: Image, k: Ledger, v: nat, d: seq<byte>)
    requires Inv(g, s, k) && v + |d| <= g.size && ClusterOffset(g, v) + |d| <= g.clusterSize
    requires MapEntry(g, s.bytes, s.l2, VirtualCluster(g, v)) != 0
    ensures var a := MapEntry(g, s.bytes, s.l2, VirtualCluster(g, v));
            var off := a + ClusterOffset(g, v);
            && a in k.own && k.own[a].Data? && a !in k.frozen.blocks && !Reserved(g, a)
            && off + |d| <= |s.bytes|
            && Inv(g, DataWritten(s, off, d), k)
            && SameAreas(g, s.bytes, DataWritten(s, off, d).bytes)
            && Contents(g, DataWritten(s, off, d).bytes, s.l2) == Splice(Contents(g, s.bytes, s.l2), v, d)
  {
    hide Inv, Contents, MapEntry, ClusterOffset, VirtualCluster, SameAreas, MappedOk, DataOk, Splice, SameBlocks,
         Reserved;
    InvData(g, s, k);
    var a := MapEntry(g, s.bytes, s.l2, VirtualCluster(g, v));
    var off := a + ClusterOffset(g, v);
    MappedOnce(g, s, k.own, VirtualCluster(g, v), VirtualCluster(g, v));
    WriteInData(g, s, k, a, off, d);
    WriteContents(g, s, k.own, v, d, Splice(s.bytes, off, d));
  }

  lemma InvData(g: Geometry, s: Image, k: Ledger)
    requires Inv(g, s, k)
    ensures 8 <= g.clusterSize && DataOk(g.clusterSize, s.bytes, k.own) && MappedOk(g, s, k.own)
  {
    DataInFile(g, s.bytes, k.own);
  }

  lemma WriteContents(g: Geometry, s: Image, own: map<nat, Role>, v: nat, d: seq<byte>, b': seq<byte>)
    requires 8 <= g.clusterSize && DataOk(g.clusterSize, s.bytes, own) && MappedOk(g, s, own)
    requires v + |d| <= g.size && ClusterOffset(g, v) + |d| <= g.clusterSize
    requires MapEntry(g, s.bytes, s.l2, VirtualCluster(g, v)) != 0
    requires var off := MapEntry(g, s.bytes, s.l2, VirtualCluster(g, v)) + ClusterOffset(g, v);
             off + |d| <= |s.bytes| && b' == Splice(s.bytes, off, d)
    requires SameBlocks(g.clusterSize, s.bytes, s.l2, b', s.l2)
    ensures Contents(g, b', s.l2) == Splice(Contents(g, s.bytes, s.l2), v, d)
  {
    hide MappedOk, DataOk, MapEntry, ByteAt, SameBlocks, VirtualCluster;
    var before := Contents(g, s.bytes, s.l2);
    forall u: nat | u < g.size
      ensures ByteAt(g, b', s.l2, u) == Splice(before, v, d)[u]
    {
      WrittenByte(g, s, own, v, d, b', u);
      SpliceAt(before, v, d, u);
    }
    ContentsAre(g, b', s.l2, Splice(before, v, d));
  }

  lemma ContentsAre(g: Geometry, b: seq<byte>, l2: Level, d: seq<byte>)
    requires 8 <= g.clusterSize && |d| == g.size
    requires forall v :: 0 <= v < g.size ==> ByteAt(g, b, l2, v) == d[v]
    ensures Contents(g, b, l2) == d
  {
  }

  lemma WriteInData(g: Geometry, s: Image, k: Ledger, a: nat, off: nat, d: seq<byte>)
    requires Inv(g, s, k) && a in k.own && k.own[a].Data? && a <= off && off + |d| <= a + g.clusterSize
    ensures a !in k.frozen.blocks && !Reserved(g, a) && off + |d| <= |s.bytes|
    ensures Inv(g, DataWritten(s, off, d), k)
    ensures SameAreas(g, s.bytes, DataWritten(s, off, d).bytes)
    ensures SameBlocks(g.clusterSize, s.bytes, s.l2, DataWritten(s, off, d).bytes, s.l2)
  {
    SpliceAreas(g, s.bytes, k.own, a, off, d);
    SpliceInCluster(g.clusterSize, s.bytes, a, off, d);
    BytesFrame(g, s, k, Splice(s.bytes, off, d), {a});
    assert !Reserved(g, a) && a !in k.frozen.blocks;
    hide Inv;
  }

  lemma WrittenByte(g: Geometry, s: Image, own: map<nat, Role>, v: nat, d: seq<byte>, b': seq<byte>, u: nat)
    requires 8 <= g.clusterSize && DataOk(g.clusterSize, s.bytes, own) && MappedOk(g, s, own)
    requires ClusterOffset(g, v) + |d| <= g.clusterSize
    requires MapEntry(g, s.bytes, s.l2, VirtualCluster(g, v)) != 0
    requires var off := MapEntry(g, s.bytes, s.l2, VirtualCluster(g, v)) + ClusterOffset(g, v);
             off + |d| <= |s.bytes| && b' == Splice(s.bytes, off, d)
    requires SameBlocks(g.clusterSize, s.bytes, s.l2, b', s.l2)
    ensures ByteAt(g, b', s.l2, u) == if v <= u < v + |d| then d[u - v] else ByteAt(g, s.bytes, s.l2, u)
  {
    hide MapEntry, MappedOk, SameBlocks, VirtualCluster, ClusterOffset, DataOk, Splice, ByteIn;
    var cs, c, c' := g.clusterSize, VirtualCluster(g, v), VirtualCluster(g, u);
    var a, a' := MapEntry(g, s.bytes, s.l2, c), MapEntry(g, s.bytes, s.l2, c');
    SameMapEntry(g, s, s.(bytes := b'), c');
    MappedOnce(g, s, own, c, c');
    SameCluster(g, v, |d|, u);
    DataWhole(cs, s.bytes, own, a);
    if c' == c {
      WrittenIn(cs, s.bytes, a, ClusterOffset(g, v), d, ClusterOffset(g, u));
    } else {
      WrittenElsewhere(cs, s.bytes, own, a, a + ClusterOffset(g, v), d, a', ClusterOffset(g, u));
    }
  }

  lemma DataWhole(cs: nat, b: seq<byte>, own: map<nat, Role>, a: nat)
    requires 0 < cs && DataOk(cs, b, own) && a in own && own[a].Data?
    ensures a + cs <= |b|
  {
  }

  lemma WrittenElsewhere(cs: nat, b: seq<byte>, own: map<nat, Role>, a: nat, off: nat, d: seq<byte>, a': nat, p: nat)
    requires 0 < cs && DataOk(cs, b, own) && p < cs && a != a'
    requires a in own && own[a].Data? && a <= off && off + |d| <= a + cs && off + |d| <= |b|
    requires a' != 0 ==> a' in own && own[a'].Data?
    ensures ByteIn(Splice(b, off, d), a', p) == ByteIn(b, a', p)
  {
    SpliceInCluster(cs, b, a, off, d);
    SameByte(cs, b, Splice(b, off, d), own, {a}, a', p);
  }

  /** Distinct virtual clusters are mapped to distinct data clusters. */
  lemma MappedOnce(g: Geometry, s: Image, own: map<nat, Role>, c: nat, c': nat)
    requires 8 <= g.clusterSize && MappedOk(g, s, own)
    ensures var a, a' := MapEntry(g, s.bytes, s.l2, c), MapEntry(g, s.bytes, s.l2, c');
            && (a != 0 ==> a in own && own[a].Data?)
            && (a' != 0 ==> a' in own && own[a'].Data?)
            && (a != 0 && a == a' ==> c == c')
  {
    var a, a' := MapEntry(g, s.bytes, s.l2, c), MapEntry(g, s.bytes, s.l2, c');
    if a != 0 && a == a' { IndexInjective(g, c, c'); }
  }

  lemma WrittenIn(cs: nat, b: seq<byte>, a: nat, o: nat, d: seq<byte>, p: nat)
    requires a != 0 && o + |d| <= cs && p < cs && a + cs <= |b|
    ensures ByteIn(Splice(b, a + o, d), a, p) == if o <= p < o + |d| then d[p - o] else ByteIn(b, a, p)
  {
  }

  /** Position of `u` relative to a range inside one cluster. */
  lemma SameCluster(g: Geometry, v: nat, n: nat, u: nat)
    requires 0 < g.clusterSize && ClusterOffset(g, v) + n <= g.clusterSize
    ensures VirtualCluster(g, v) == VirtualCluster(g, u) ==> u - v == ClusterOffset(g, u) - ClusterOffset(g, v)
    ensures v <= u < v + n ==> VirtualCluster(g, v) == VirtualCluster(g, u)
  {
    var cs := g.clusterSize;
    assert v == cs * (v / cs) + v % cs && u == cs * (u / cs) + u % cs;
    if v <= u < v + n {
      DivModUnique(u, cs, v / cs, v % cs + (u - v));
    }
  }
}
