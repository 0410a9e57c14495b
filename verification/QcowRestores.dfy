/**
 * What a rebuild of the reference counts is for: with the counts restored, the image is one that the rest
 * of the engine can work on.
 */
module QcowRestores {
  import opened Arithmetic
  import opened HostBytes
  import opened PointerTables
  import opened VecCaches
  import opened CachedTables
  import opened Journals
  import opened QcowImage
  import opened QcowCommit
  import opened QcowHeaders
  import opened QcowLayouts
  import opened QcowOpens
  import opened QcowRebuilds

  /** The image is opened with the geometry of the header, and its refcount table fits the clusters set aside. */
  predicate Matches(g: Geometry, h: Header)
    requires 8 <= g.clusterSize
  {
    && g.size == h.size && g.l1Offset == h.l1TableOffset && g.l1Len == h.l1Size
    && g.refTableOffset == h.refcountTableOffset && 8 * g.refTableLen <= TableRoom(g.clusterSize, h)
    && TableEntries(g.clusterSize, h.size) <= g.refTableLen
  }

  function L1Row(cs: nat, h: Header): seq<nat>
    requires 0 < cs
  {
    Row(h.l1TableOffset, cs, CeilDiv(h.l1Size, cs))
  }

  function RefTableRow(cs: nat, h: Header): seq<nat> {
    Row(h.refcountTableOffset, cs, h.refcountTableClusters)
  }

  /** The cluster at `a` holds header or top-level tables. */
  predicate IsFixed(cs: nat, h: Header, a: nat)
    requires 0 < cs
  {
    a == 0 || a in L1Row(cs, h) || a in RefTableRow(cs, h)
  }

  function MappedRefs(b: seq<byte>, cs: nat, h: Header): seq<nat>
    requires cs % 8 == 0 && h.l1TableOffset + 8 * h.l1Size <= |b|
  {
    MapRefs(b, cs, L1Of(b, h))
  }

  /**
   * An image whose tables are sound, whatever its counts are: no cluster is referred to twice, everything
   * is aligned and within the file, the clusters counted for the L1 table are all it needs, and nothing is
   * left in the refcount table behind the entries that will be written.
   */
  ghost predicate Healthy(b: seq<byte>, cs: nat, h: Header)
    requires 8 <= cs && cs % 8 == 0
  {
    && MapReadable(b, cs, h)
    && (forall a :: a in References(b, cs, h) ==> a % cs == 0)
    && (forall a :: a in MappedRefs(b, cs, h) ==> a + cs <= |b|)
    && (forall i: nat :: Tally(References(b, cs, h), cs, i) <= 1)
    && h.l1TableOffset % cs == 0 && 8 * h.l1Size <= CeilDiv(h.l1Size, cs) * cs
    && (forall p :: NoLongerUsed(cs, h, p) ==> ByteOf(b, p) == 0)
    && (forall a: nat :: TailCluster(cs, |b|, a) ==> IsFixed(cs, h, a))
  }

  /** Byte `p` is in the clusters of the refcount table, behind the rebuilt table. */
  predicate NoLongerUsed(cs: nat, h: Header, p: nat)
    requires 8 <= cs
  {
    h.refcountTableOffset + 8 * TableEntries(cs, h.size) <= p < h.refcountTableOffset + TableRoom(cs, h)
  }

  // Counting tells clusters apart.

  function Number(cs: nat, a: nat): nat
    requires 0 < cs
  {
    a / cs
  }

  lemma TallyIn(refs: seq<nat>, cs: nat, a: nat)
    requires 0 < cs && a in refs
    ensures Tally(refs, cs, Number(cs, a)) >= 1
  {
    var k :| 0 <= k < |refs| && refs[k] == a;
    TallyMember(refs, cs, k);
  }

  lemma ReferencesSplit(b: seq<byte>, cs: nat, h: Header, i: nat)
    requires 0 < cs && cs % 8 == 0 && h.l1TableOffset + 8 * h.l1Size <= |b|
    ensures Tally(References(b, cs, h), cs, i) ==
            Tally([0], cs, i) + Tally(L1Row(cs, h), cs, i) + Tally(MappedRefs(b, cs, h), cs, i) +
            Tally(RefTableRow(cs, h), cs, i)
  {
    hide Number, Tally, Row, MapRefs, L1Of;
    TallyAdd([0] + L1Row(cs, h) + MappedRefs(b, cs, h), RefTableRow(cs, h), cs, i);
    TallyAdd([0] + L1Row(cs, h), MappedRefs(b, cs, h), cs, i);
    TallyAdd([0], L1Row(cs, h), cs, i);
  }

  lemma ReferenceKinds(b: seq<byte>, cs: nat, h: Header, a: nat)
    requires 0 < cs && cs % 8 == 0 && h.l1TableOffset + 8 * h.l1Size <= |b|
    ensures a in References(b, cs, h) <==> IsFixed(cs, h, a) || a in MappedRefs(b, cs, h)
  {
    hide Row, MapRefs, L1Of;
  }

  /** What is mapped is none of the fixed clusters. */
  lemma DataNotFixed(b: seq<byte>, cs: nat, h: Header, a: nat)
    requires 8 <= cs && cs % 8 == 0 && Healthy(b, cs, h) && a in MappedRefs(b, cs, h)
    ensures !IsFixed(cs, h, a)
  {
    hide Number, Tally, Row, MapRefs, L1Of, References;
    HealthyCounts(b, cs, h, Number(cs, a));
    ReferencesSplit(b, cs, h, Number(cs, a));
    TallyIn(MappedRefs(b, cs, h), cs, a);
    if a == 0 {
      TallyIn([0], cs, 0);
    } else if a in L1Row(cs, h) {
      TallyIn(L1Row(cs, h), cs, a);
    } else if a in RefTableRow(cs, h) {
      TallyIn(RefTableRow(cs, h), cs, a);
    }
  }

  /** The clusters of the refcount table are those of nothing else. */
  lemma RefTableApart(b: seq<byte>, cs: nat, h: Header, a: nat)
    requires 8 <= cs && cs % 8 == 0 && Healthy(b, cs, h) && a in RefTableRow(cs, h)
    ensures a != 0 && a !in L1Row(cs, h) && a !in MappedRefs(b, cs, h)
  {
    hide Number, Tally, Row, MapRefs, L1Of, References;
    HealthyCounts(b, cs, h, Number(cs, a));
    ReferencesSplit(b, cs, h, Number(cs, a));
    TallyIn(RefTableRow(cs, h), cs, a);
    if a == 0 {
      TallyIn([0], cs, 0);
    }
    if a in L1Row(cs, h) {
      TallyIn(L1Row(cs, h), cs, a);
    }
    if a in MappedRefs(b, cs, h) {
      TallyIn(MappedRefs(b, cs, h), cs, a);
    }
  }

  lemma HealthyCounts(b: seq<byte>, cs: nat, h: Header, i: nat)
    requires 8 <= cs && cs % 8 == 0 && Healthy(b, cs, h)
    ensures h.l1TableOffset + 8 * h.l1Size <= |b| && Tally(References(b, cs, h), cs, i) <= 1
  {
    hide Number, Tally, References;
  }

  lemma HealthyAligned(b: seq<byte>, cs: nat, h: Header, a: nat)
    requires 8 <= cs && cs % 8 == 0 && Healthy(b, cs, h) && h.l1TableOffset + 8 * h.l1Size <= |b|
    requires a in References(b, cs, h)
    ensures a % cs == 0
  {
    hide Number, Tally, References;
  }

  /** A new block is on none of the clusters in use. */
  lemma BlockNotReferenced(refs: seq<nat>, cs: nat, table: seq<nat>, a: nat)
    requires 0 < cs && BlocksWereFree(refs, cs, table) && a in table
    ensures a !in refs && a % cs == 0
  {
    hide Tally, FreeBelow;
    if a in refs {
      TallyIn(refs, cs, a);
    }
  }

  /** Two L2 tables have no reference in common, be it to themselves or to data. */
  lemma {:induction false} TablesTally(b: seq<byte>, cs: nat, l1: seq<nat>, i: nat, j: nat, c: nat)
    requires 0 < cs && cs % 8 == 0 && i < j < |l1|
    ensures Tally(MapRefs(b, cs, l1), cs, c) >=
            Tally(TableRefs(b, cs, l1[i]), cs, c) + Tally(TableRefs(b, cs, l1[j]), cs, c)
  {
    hide Number, Tally, TableRefs;
    var n := |l1| - 1;
    TallyAdd(MapRefs(b, cs, l1[..n]), TableRefs(b, cs, l1[n]), cs, c);
    if j < n {
      TablesTally(b, cs, l1[..n], i, j, c);
    } else {
      TableTally(b, cs, l1[..n], i, c);
    }
  }

  lemma {:induction false} TableTally(b: seq<byte>, cs: nat, l1: seq<nat>, i: nat, c: nat)
    requires 0 < cs && cs % 8 == 0 && i < |l1|
    ensures Tally(MapRefs(b, cs, l1), cs, c) >= Tally(TableRefs(b, cs, l1[i]), cs, c)
  {
    hide Number, Tally, TableRefs;
    var n := |l1| - 1;
    TallyAdd(MapRefs(b, cs, l1[..n]), TableRefs(b, cs, l1[n]), cs, c);
    if i < n {
      TableTally(b, cs, l1[..n], i, c);
    }
  }

  lemma {:induction false} TableRefsIn(b: seq<byte>, cs: nat, l1: seq<nat>, i: nat, a: nat)
    requires cs % 8 == 0 && i < |l1| && a in TableRefs(b, cs, l1[i])
    ensures a in MapRefs(b, cs, l1)
  {
    hide TableRefs;
    var n := |l1| - 1;
    if i < n {
      TableRefsIn(b, cs, l1[..n], i, a);
    }
  }

  lemma {:induction false} NonZeroTwice(t: seq<nat>, cs: nat, j: nat, k: nat)
    requires 0 < cs && j < k < |t| && t[j] == t[k] != 0
    ensures Tally(NonZero(t), cs, Number(cs, t[j])) >= 2
  {
    hide Number, Tally;
    var n := |t| - 1;
    TallyAdd(NonZero(t[..n]), if t[n] != 0 then [t[n]] else [], cs, Number(cs, t[j]));
    if k < n {
      NonZeroTwice(t[..n], cs, j, k);
    } else {
      NonZeroHas(t[..n], j);
      TallyIn(NonZero(t[..n]), cs, t[j]);
      TallyIn([t[n]], cs, t[n]);
    }
  }

  // The entries of the L2 tables.

  /** Entry `j` of L2 table `i`, or 0. */
  function DataAt(b: seq<byte>, cs: nat, l1: seq<nat>, i: nat, j: nat): nat
    requires cs % 8 == 0
  {
    if i < |l1| && l1[i] != 0 && l1[i] + cs <= |b| && j < cs / 8
    then DecodePointers(Cluster(cs, b, l1[i]), cs / 8, true)[j]
    else 0
  }

  lemma TableHas(b: seq<byte>, cs: nat, l1: seq<nat>, i: nat)
    requires cs % 8 == 0 && i < |l1| && l1[i] != 0
    ensures l1[i] in TableRefs(b, cs, l1[i])
  {
    assert TableRefs(b, cs, l1[i])[0] == l1[i];
  }

  lemma EntryHas(b: seq<byte>, cs: nat, l1: seq<nat>, i: nat, j: nat)
    requires cs % 8 == 0 && DataAt(b, cs, l1, i, j) != 0
    ensures i < |l1| && DataAt(b, cs, l1, i, j) in TableRefs(b, cs, l1[i])
  {
    hide DecodePointers;
    NonZeroHas(DecodePointers(Cluster(cs, b, l1[i]), cs / 8, true), j);
  }

  lemma TallySplit(b: seq<byte>, cs: nat, l1: seq<nat>, i: nat, c: nat)
    requires 0 < cs && cs % 8 == 0 && i < |l1| && l1[i] != 0 && l1[i] + cs <= |b|
    ensures Tally(TableRefs(b, cs, l1[i]), cs, c) ==
            Tally([l1[i]], cs, c) + Tally(NonZero(DecodePointers(Cluster(cs, b, l1[i]), cs / 8, true)), cs, c)
  {
    hide Number, Tally, DecodePointers, NonZero;
    TallyAdd([l1[i]], NonZero(DecodePointers(Cluster(cs, b, l1[i]), cs / 8, true)), cs, c);
  }

  /** No reference count above one: then a reference is found in one table only. */
  lemma OneTable(b: seq<byte>, cs: nat, l1: seq<nat>, i: nat, j: nat, a: nat)
    requires 0 < cs && cs % 8 == 0 && i < |l1| && j < |l1|
    requires Tally(MapRefs(b, cs, l1), cs, Number(cs, a)) <= 1
    requires a in TableRefs(b, cs, l1[i]) && a in TableRefs(b, cs, l1[j])
    ensures i == j
  {
    hide Number, Tally, TableRefs, MapRefs;
    TallyIn(TableRefs(b, cs, l1[i]), cs, a);
    TallyIn(TableRefs(b, cs, l1[j]), cs, a);
    if i < j {
      TablesTally(b, cs, l1, i, j, Number(cs, a));
    } else if j < i {
      TablesTally(b, cs, l1, j, i, Number(cs, a));
    }
  }

  /** An entry is neither the table it is in nor another entry of it. */
  lemma OneEntry(b: seq<byte>, cs: nat, l1: seq<nat>, i: nat, j: nat, k: nat)
    requires 0 < cs && cs % 8 == 0 && DataAt(b, cs, l1, i, j) != 0
    requires Tally(MapRefs(b, cs, l1), cs, Number(cs, DataAt(b, cs, l1, i, j))) <= 1
    ensures DataAt(b, cs, l1, i, j) != l1[i]
    ensures DataAt(b, cs, l1, i, k) == DataAt(b, cs, l1, i, j) ==> k == j
  {
    hide Number, Tally, DecodePointers, NonZero, TableRefs, MapRefs;
    var d, t := DataAt(b, cs, l1, i, j), DecodePointers(Cluster(cs, b, l1[i]), cs / 8, true);
    TableTally(b, cs, l1, i, Number(cs, d));
    TallySplit(b, cs, l1, i, Number(cs, d));
    NonZeroHas(t, j);
    TallyIn(NonZero(t), cs, d);
    if d == l1[i] {
      TallyIn([l1[i]], cs, d);
    }
    if k < |t| && t[k] == d && k != j {
      NonZeroTwice(t, cs, if j < k then j else k, if j < k then k else j);
    }
  }

  lemma MapTally(b: seq<byte>, cs: nat, h: Header, c: nat)
    requires 8 <= cs && cs % 8 == 0 && Healthy(b, cs, h)
    ensures h.l1TableOffset + 8 * h.l1Size <= |b| && Tally(MapRefs(b, cs, L1Of(b, h)), cs, c) <= 1
  {
    hide Number, Tally, Row, MapRefs, L1Of, References;
    HealthyCounts(b, cs, h, c);
    ReferencesSplit(b, cs, h, c);
  }

  lemma L1Length(b: seq<byte>, h: Header)
    requires h.l1TableOffset + 8 * h.l1Size <= |b|
    ensures |L1Of(b, h)| == h.l1Size
  {
  }

  // The roles of the clusters.

  /** What the cluster at `a` is used for; the conditions exclude each other. */
  ghost function RoleOf(b: seq<byte>, cs: nat, h: Header, table: seq<nat>, a: nat): Role
    requires 8 <= cs && cs % 8 == 0 && h.l1TableOffset + 8 * h.l1Size <= |b|
  {
    var l1 := L1Of(b, h);
    if IsFixed(cs, h, a) then Fixed
    else if exists t :: 0 <= t < |table| && table[t] == a then
      var t :| 0 <= t < |table| && table[t] == a; RefBlock(t)
    else if exists i :: 0 <= i < |l1| && l1[i] == a then
      var i :| 0 <= i < |l1| && l1[i] == a; L2Table(i)
    else if exists i: nat, j: nat :: DataAt(b, cs, l1, i, j) == a then
      var i: nat, j: nat :| DataAt(b, cs, l1, i, j) == a; Data(i, j)
    else Fixed
  }

  lemma BlockRole(b: seq<byte>, cs: nat, h: Header, table: seq<nat>, t: nat)
    requires 8 <= cs && cs % 8 == 0 && Healthy(b, cs, h)
    requires h.l1TableOffset + 8 * h.l1Size <= |b| && BlocksWereFree(References(b, cs, h), cs, table) && t < |table|
    ensures RoleOf(b, cs, h, table, table[t]) == RefBlock(t)
  {
    hide Number, Tally, FreeBelow, References, L1Of, DataAt, IsFixed, Healthy;
    BlockNotReferenced(References(b, cs, h), cs, table, table[t]);
    ReferenceKinds(b, cs, h, table[t]);
  }

  lemma TableRole(b: seq<byte>, cs: nat, h: Header, table: seq<nat>, i: nat)
    requires 8 <= cs && cs % 8 == 0 && Healthy(b, cs, h)
    requires h.l1TableOffset + 8 * h.l1Size <= |b| && BlocksWereFree(References(b, cs, h), cs, table)
    requires i < h.l1Size && L1Of(b, h)[i] != 0
    ensures L1Of(b, h)[i] in References(b, cs, h) && L1Of(b, h)[i] in MappedRefs(b, cs, h)
    ensures RoleOf(b, cs, h, table, L1Of(b, h)[i]) == L2Table(i)
  {
    hide Number, Tally, FreeBelow, References, L1Of, DataAt, IsFixed, Healthy, MapRefs, TableRefs, BlocksWereFree;
    var l1 := L1Of(b, h);
    L1Length(b, h);
    var a := l1[i];
    TableHas(b, cs, l1, i);
    TableRefsIn(b, cs, l1, i, a);
    DataNotFixed(b, cs, h, a);
    ReferenceKinds(b, cs, h, a);
    forall t | 0 <= t < |table|
      ensures table[t] != a
    {
      BlockNotReferenced(References(b, cs, h), cs, table, table[t]);
    }
    MapTally(b, cs, h, Number(cs, a));
    forall k | 0 <= k < |l1| && l1[k] == a
      ensures k == i
    {
      TableHas(b, cs, l1, k);
      OneTable(b, cs, l1, i, k, a);
    }
  }

  lemma DataRole(b: seq<byte>, cs: nat, h: Header, table: seq<nat>, i: nat, j: nat)
    requires 8 <= cs && cs % 8 == 0 && Healthy(b, cs, h)
    requires h.l1TableOffset + 8 * h.l1Size <= |b| && BlocksWereFree(References(b, cs, h), cs, table)
    requires DataAt(b, cs, L1Of(b, h), i, j) != 0
    ensures var d := DataAt(b, cs, L1Of(b, h), i, j);
            && d in References(b, cs, h) && d in MappedRefs(b, cs, h)
            && RoleOf(b, cs, h, table, d) == Data(i, j)
  {
    hide Number, Tally, FreeBelow, References, L1Of, DataAt, IsFixed, Healthy, MapRefs, TableRefs, BlocksWereFree;
    var l1 := L1Of(b, h);
    var d := DataAt(b, cs, l1, i, j);
    EntryHas(b, cs, l1, i, j);
    TableRefsIn(b, cs, l1, i, d);
    DataNotFixed(b, cs, h, d);
    ReferenceKinds(b, cs, h, d);
    forall t | 0 <= t < |table|
      ensures table[t] != d
    {
      BlockNotReferenced(References(b, cs, h), cs, table, table[t]);
    }
    MapTally(b, cs, h, Number(cs, d));
    OneEntry(b, cs, l1, i, j, j);
    forall k | 0 <= k < |l1|
      ensures l1[k] != d
    {
      if l1[k] == d {
        TableHas(b, cs, l1, k);
        OneTable(b, cs, l1, i, k, d);
      }
    }
    forall i': nat, j': nat | DataAt(b, cs, l1, i', j') == d
      ensures i' == i && j' == j
    {
      EntryHas(b, cs, l1, i', j');
      OneTable(b, cs, l1, i, i', d);
      OneEntry(b, cs, l1, i, j, j');
    }
  }

  // What the rebuild leaves alone.

  /** A cluster in use, other than those of header and refcount table, reads as before. */
  lemma ClusterKept(b: seq<byte>, cs: nat, h: Header, b': seq<byte>, table: seq<nat>, a: nat, p: nat)
    requires 512 <= cs && cs % 8 == 0 && Healthy(b, cs, h) && Rebuilt(b, cs, h, b', table)
    requires h.refcountTableOffset % cs == 0 && 8 * |table| <= TableRoom(cs, h) && cs <= TableRoom(cs, h)
    requires a in L1Row(cs, h) || a in MappedRefs(b, cs, h)
    requires a != 0 && a <= p < a + cs && p < |b'|
    ensures b'[p] == ByteOf(b, p)
  {
    hide Tally, FreeBelow, References, L1Of, Row, MapRefs, Healthy, CountsRestored, MapReadable, TableAt, TableEntries,
         BlocksWereFree;
    ReadableL1(b, cs, h);
    var refs := References(b, cs, h);
    ReferenceKinds(b, cs, h, a);
    HealthyAligned(b, cs, h, a);
    AlignedApart(cs, 0, a);
    forall k | 0 <= k < |table| && table[k] != 0
      ensures p < table[k] || table[k] + cs <= p
    {
      BlockNotReferenced(refs, cs, table, table[k]);
      AlignedApart(cs, a, table[k]);
    }
    if h.refcountTableOffset <= p < h.refcountTableOffset + TableRoom(cs, h) {
      InRefTable(cs, h, a, p);
      RefTableApart(b, cs, h, a);
    }
  }

  /** A cluster that reaches into the refcount table is one of its clusters. */
  lemma InRefTable(cs: nat, h: Header, a: nat, p: nat)
    requires 0 < cs && h.refcountTableOffset % cs == 0 && a % cs == 0 && a <= p < a + cs
    requires h.refcountTableOffset <= p < h.refcountTableOffset + TableRoom(cs, h)
    ensures a in RefTableRow(cs, h)
  {
    if a != h.refcountTableOffset {
      AlignedApart(cs, a, h.refcountTableOffset);
    }
    var i := InRow(h.refcountTableOffset, cs, h.refcountTableClusters, a);
    RowMember(h.refcountTableOffset, cs, h.refcountTableClusters, i);
  }

  lemma InL1Row(cs: nat, h: Header, a: nat, p: nat)
    requires 0 < cs && h.l1TableOffset % cs == 0 && a % cs == 0 && a <= p < a + cs
    requires 8 * h.l1Size <= CeilDiv(h.l1Size, cs) * cs && h.l1TableOffset <= p < h.l1TableOffset + 8 * h.l1Size
    ensures a in L1Row(cs, h)
  {
    hide CeilDiv;
    if a != h.l1TableOffset {
      AlignedApart(cs, a, h.l1TableOffset);
    }
    var i := InRow(h.l1TableOffset, cs, CeilDiv(h.l1Size, cs), a);
    RowMember(h.l1TableOffset, cs, CeilDiv(h.l1Size, cs), i);
  }

  /** The start of the cluster byte `p` is in. */
  lemma StartOf(cs: nat, p: nat) returns (a: nat)
    requires 0 < cs
    ensures a % cs == 0 && a <= p < a + cs
  {
    a := p - p % cs;
    assert p == cs * (p / cs) + p % cs;
    DivModUnique(a, cs, p / cs, 0);
  }

  lemma L1Kept(g: Geometry, b: seq<byte>, h: Header, b': seq<byte>, table: seq<nat>)
    requires GeometryOk(g) && g.clusterSize % 8 == 0 && Matches(g, h)
    requires Healthy(b, g.clusterSize, h) && Rebuilt(b, g.clusterSize, h, b', table)
    requires InFile(g, b') && h.refcountTableOffset % g.clusterSize == 0
    requires 8 * |table| <= TableRoom(g.clusterSize, h) && g.clusterSize <= TableRoom(g.clusterSize, h)
    ensures DiskL1(g, b') == L1Of(b, h)
  {
    hide Tally, FreeBelow, References, Row, MapRefs, CountsRestored, MapReadable, TableAt, TableEntries,
         BlocksWereFree, DecodePointers, CeilDiv, NoLongerUsed, Elsewhere;
    var cs := g.clusterSize;
    ReadableL1(b, cs, h);
    forall p | h.l1TableOffset <= p < h.l1TableOffset + 8 * h.l1Size
      ensures b'[p] == b[p]
    {
      var a := StartOf(cs, p);
      AlignedApart2(cs, a, p);
      InL1Row(cs, h, a, p);
      ClusterKept(b, cs, h, b', table, a, p);
    }
    assert L1Area(g, b') == b[h.l1TableOffset..h.l1TableOffset + 8 * h.l1Size];
  }

  /** A cluster that holds a byte behind the first cluster is not the first one. */
  lemma AlignedApart2(cs: nat, a: nat, p: nat)
    requires 0 < cs <= p && a % cs == 0 && a <= p < a + cs
    ensures a != 0
  {
  }

  lemma TableKept(b: seq<byte>, cs: nat, h: Header, b': seq<byte>, table: seq<nat>, i: nat)
    requires 512 <= cs && cs % 8 == 0 && Healthy(b, cs, h) && Rebuilt(b, cs, h, b', table)
    requires h.refcountTableOffset % cs == 0 && 8 * |table| <= TableRoom(cs, h) && cs <= TableRoom(cs, h)
    requires h.l1TableOffset + 8 * h.l1Size <= |b| && i < h.l1Size && L1Of(b, h)[i] != 0
    ensures var a := L1Of(b, h)[i];
            a + cs <= |b| <= |b'| && a % cs == 0 && Cluster(cs, b', a) == Cluster(cs, b, a)
  {
    hide Tally, FreeBelow, References, Row, MapRefs, L1Of, CountsRestored, TableAt, TableEntries, BlocksWereFree,
         CeilDiv, NoLongerUsed, Elsewhere, MappedRefs, RoleOf;
    L1Length(b, h);
    var a := L1Of(b, h)[i];
    TableRole(b, cs, h, table, i);
    HealthyAligned(b, cs, h, a);
    forall p | a <= p < a + cs
      ensures b'[p] == b[p]
    {
      ClusterKept(b, cs, h, b', table, a, p);
    }
  }

  lemma {:induction false} DecodeZeroTail(b: seq<byte>, n: nat, m: nat)
    requires |b| == 8 * (n + m) && b[8 * n..] == Zeros(8 * m)
    ensures DecodePointers(b, n + m, false) == DecodePointers(b[..8 * n], n, false) + ZeroBlock(m)
  {
    if n == 0 {
      PointersOfZeros(m, false);
      assert b == b[8 * n..];
      assert DecodePointers(b[..8 * n], n, false) == [];
    } else {
      assert b[8..][8 * (n - 1)..] == b[8 * n..];
      DecodeZeroTail(b[8..], n - 1, m);
      assert b[..8 * n][..8] == b[..8] && b[..8 * n][8..] == b[8..][..8 * (n - 1)];
    }
  }

  /** The refcount table a reader finds is the rebuilt one, with nothing behind it. */
  lemma RefTableFound(g: Geometry, b: seq<byte>, h: Header, b': seq<byte>, table: seq<nat>)
    requires GeometryOk(g) && g.clusterSize % 8 == 0 && Matches(g, h)
    requires Healthy(b, g.clusterSize, h) && Rebuilt(b, g.clusterSize, h, b', table)
    requires InFile(g, b') && h.refcountTableOffset % g.clusterSize == 0
    ensures |table| <= g.refTableLen && DiskRefTable(g, b') == table + ZeroBlock(g.refTableLen - |table|)
  {
    hide Tally, FreeBelow, References, Row, MapRefs, L1Of, CountsRestored, MapReadable, TableEntries, BlocksWereFree,
         DecodePointers, CeilDiv, IsFixed, Elsewhere, Outside, GrownTo;
    var cs, lo, n := g.clusterSize, h.refcountTableOffset, |table|;
    forall p | lo + 8 * n <= p < lo + 8 * g.refTableLen
      ensures b'[p] == 0
    {
      StaleByte(b, cs, h, b', table, p);
    }
    var area := RefTableArea(g, b');
    assert area[8 * n..] == Zeros(8 * (g.refTableLen - n));
    assert area[..8 * n] == b'[lo..lo + 8 * n];
    DecodeZeroTail(area, n, g.refTableLen - n);
  }

  lemma StaleByte(b: seq<byte>, cs: nat, h: Header, b': seq<byte>, table: seq<nat>, p: nat)
    requires 512 <= cs && cs % 8 == 0 && Healthy(b, cs, h) && Rebuilt(b, cs, h, b', table)
    requires h.refcountTableOffset % cs == 0 && cs <= h.refcountTableOffset
    requires h.refcountTableOffset + 8 * |table| <= p < h.refcountTableOffset + TableRoom(cs, h) && p < |b'|
    ensures b'[p] == 0
  {
    hide Tally, FreeBelow, References, Row, MapRefs, L1Of, CountsRestored, MapReadable, BlocksWereFree, TableAt,
         CeilDiv, IsFixed, TableEntries;
    assert NoLongerUsed(cs, h, p);
    var a := StartOf(cs, p);
    InRefTable(cs, h, a, p);
    ReadableL1(b, cs, h);
    ReferenceKinds(b, cs, h, a);
    FixedRow(cs, h, a);
    forall k | 0 <= k < |table| && table[k] != 0
      ensures p < table[k] || table[k] + cs <= p
    {
      BlockNotReferenced(References(b, cs, h), cs, table, table[k]);
      AlignedApart(cs, a, table[k]);
    }
  }

  lemma FixedRow(cs: nat, h: Header, a: nat)
    requires 0 < cs && (a in RefTableRow(cs, h) || a in L1Row(cs, h) || a == 0)
    ensures IsFixed(cs, h, a)
  {
  }

  // The image the file now holds.

  lemma EntriesKept(g: Geometry, b: seq<byte>, h: Header, b': seq<byte>, table: seq<nat>, i: nat, j: nat)
    requires GeometryOk(g) && g.clusterSize % 8 == 0 && Matches(g, h)
    requires Healthy(b, g.clusterSize, h) && Rebuilt(b, g.clusterSize, h, b', table)
    requires InFile(g, b') && h.refcountTableOffset % g.clusterSize == 0
    requires 8 * |table| <= TableRoom(g.clusterSize, h) && g.clusterSize <= TableRoom(g.clusterSize, h)
    requires h.l1TableOffset + 8 * h.l1Size <= |b|
    ensures Entry(g.clusterSize, b', Opened(g, b').l2, i, j) == DataAt(b, g.clusterSize, L1Of(b, h), i, j)
  {
    hide Healthy, Rebuilt, L1Of, DiskL1, DecodePointers, Cluster, MapReadable;
    L1Kept(g, b, h, b', table);
    L1Length(b, h);
    if i < h.l1Size && L1Of(b, h)[i] != 0 {
      TableKept(b, g.clusterSize, h, b', table, i);
    }
  }

  /**
   * A healthy image after a rebuild: `b'` is what `b` became. The rebuilt table must reach every cluster
   * in use (see `RebuildCovers`), and the file must hold the whole refcount table.
   */
  ghost predicate Restored(g: Geometry, b: seq<byte>, h: Header, b': seq<byte>, table: seq<nat>) {
    && GeometryOk(g) && g.clusterSize % 8 == 0 && Matches(g, h)
    && Healthy(b, g.clusterSize, h) && Rebuilt(b, g.clusterSize, h, b', table) && InFile(g, b')
    && h.l1TableOffset + 8 * h.l1Size <= |b| && h.refcountTableOffset % g.clusterSize == 0
    && 8 * |table| <= TableRoom(g.clusterSize, h) && g.clusterSize <= TableRoom(g.clusterSize, h)
  }

  /** Every cluster in use has a slot in the rebuilt table. */
  ghost predicate Covered(g: Geometry, b: seq<byte>, h: Header, table: seq<nat>)
    requires 8 <= g.clusterSize && g.clusterSize % 8 == 0 && h.l1TableOffset + 8 * h.l1Size <= |b|
  {
    AllBelow(References(b, g.clusterSize, h) + table, g.clusterSize, |table| * (g.clusterSize / 2))
  }

  /** The engine relies on this cluster: it does on all but those spare ones of the refcount table. */
  predicate Relied(g: Geometry, h: Header, b': seq<byte>, a: nat)
    requires 0 < g.clusterSize
  {
    a in RefTableRow(g.clusterSize, h) ==> Reserved(g, a) || TailCluster(g.clusterSize, |b'|, a)
  }

  /** Every cluster the engine relies on has a slot in the rebuilt table. */
  ghost predicate Reaches(g: Geometry, b: seq<byte>, h: Header, b': seq<byte>, table: seq<nat>)
    requires 8 <= g.clusterSize && g.clusterSize % 8 == 0 && h.l1TableOffset + 8 * h.l1Size <= |b|
  {
    forall a :: a in References(b, g.clusterSize, h) + table && Relied(g, h, b', a) ==>
      Number(g.clusterSize, a) < |table| * (g.clusterSize / 2)
  }

  lemma CoveredReaches(g: Geometry, b: seq<byte>, h: Header, b': seq<byte>, table: seq<nat>)
    requires 8 <= g.clusterSize && g.clusterSize % 8 == 0 && h.l1TableOffset + 8 * h.l1Size <= |b|
    requires Covered(g, b, h, table)
    ensures Reaches(g, b, h, b', table)
  {
    hide References, Relied;
  }

  ghost function RestoredOwn(g: Geometry, b: seq<byte>, h: Header, b': seq<byte>, table: seq<nat>): map<nat, Role>
    requires 8 <= g.clusterSize && g.clusterSize % 8 == 0 && h.l1TableOffset + 8 * h.l1Size <= |b|
  {
    map a | a in References(b, g.clusterSize, h) + table && Relied(g, h, b', a) :: RoleOf(b, g.clusterSize, h, table, a)
  }

  lemma RestoredTops(g: Geometry, b: seq<byte>, h: Header, b': seq<byte>, table: seq<nat>)
    requires Restored(g, b, h, b', table)
    ensures var s := Opened(g, b'); s.l2.top == L1Of(b, h) && |s.l2.top| == g.l1Len
    ensures var s := Opened(g, b'); |table| <= g.refTableLen && s.rc.top == table + ZeroBlock(g.refTableLen - |table|)
  {
    hide Healthy, Rebuilt, L1Of, DiskL1, DiskRefTable, ZeroBlock;
    L1Kept(g, b, h, b', table);
    L1Length(b, h);
    RefTableFound(g, b, h, b', table);
  }

  lemma RestoredShape(g: Geometry, b: seq<byte>, h: Header, b': seq<byte>, table: seq<nat>)
    requires Restored(g, b, h, b', table) && Readable(g, b')
    ensures ShapeOk(g, Opened(g, b'))
  {
    hide Healthy, Rebuilt, L1Of, DiskL1, DiskRefTable, Plain;
    var s := Opened(g, b');
    RestoredTops(g, b, h, b', table);
    forall i | 0 <= i < |s.l2.top| && s.l2.top[i] != 0
      ensures s.l2.top[i] % g.clusterSize == 0 && s.l2.top[i] + g.clusterSize <= |b'|
    {
      TableKept(b, g.clusterSize, h, b', table, i);
    }
    forall t | 0 <= t < |s.rc.top| && s.rc.top[t] != 0
      ensures s.rc.top[t] % g.clusterSize == 0 && s.rc.top[t] + g.clusterSize <= |b'|
    {
      BlockPlace(b, g.clusterSize, h, b', table, t);
    }
    CountsPlain(g.clusterSize, b', s.rc);
  }

  lemma CountsPlain(cs: nat, b: seq<byte>, lv: Level)
    requires lv.kind.Counts?
    ensures PlainOk(cs, b, lv)
  {
  }

  lemma BlockPlace(b: seq<byte>, cs: nat, h: Header, b': seq<byte>, table: seq<nat>, t: nat)
    requires 512 <= cs && cs % 8 == 0 && Rebuilt(b, cs, h, b', table) && t < |table|
    ensures table[t] % cs == 0 && table[t] + cs <= |b'|
  {
    hide Tally, FreeBelow, References, Outside, Elsewhere, CountsRestored, MapReadable, TableAt, TableEntries;
  }

  // The ledger fits.

  lemma CoveredBelow(g: Geometry, b: seq<byte>, h: Header, table: seq<nat>, a: nat)
    requires 8 <= g.clusterSize && g.clusterSize % 8 == 0 && h.l1TableOffset + 8 * h.l1Size <= |b| && ReachesLimit(g)
    requires Covered(g, b, h, table) && a in References(b, g.clusterSize, h) + table && |table| <= g.refTableLen
    requires a % g.clusterSize == 0
    ensures a + g.clusterSize <= g.limit
  {
    hide References;
    NumberBelow(g, table, a);
  }

  lemma NumberBelow(g: Geometry, table: seq<nat>, a: nat)
    requires 8 <= g.clusterSize && ReachesLimit(g) && |table| <= g.refTableLen && a % g.clusterSize == 0
    requires Number(g.clusterSize, a) < |table| * (g.clusterSize / 2)
    ensures a + g.clusterSize <= g.limit
  {
    var cs, m := g.clusterSize, g.refTableLen * (g.clusterSize / 2);
    MulMonotone(|table|, g.refTableLen, cs / 2);
    EndsBelow(a, cs, m);
  }

  predicate ReachesLimit(g: Geometry) {
    g.limit == g.refTableLen * (g.clusterSize / 2) * g.clusterSize
  }

  lemma EndsBelow(a: nat, cs: nat, m: nat)
    requires 0 < cs && a % cs == 0 && a / cs < m
    ensures a + cs <= m * cs
  {
    var q := a / cs;
    assert a == cs * q;
    MulMonotone(q + 1, m, cs);
    assert (q + 1) * cs == cs * q + cs;
  }

  /** Every cluster in the ledger has one of the roles of a restored image. */
  lemma OwnCases(b: seq<byte>, cs: nat, h: Header, table: seq<nat>, a: nat)
    requires 8 <= cs && cs % 8 == 0 && Healthy(b, cs, h) && h.l1TableOffset + 8 * h.l1Size <= |b|
    requires BlocksWereFree(References(b, cs, h), cs, table) && a in References(b, cs, h) + table
    ensures var r := RoleOf(b, cs, h, table, a);
            match r
            case Fixed => IsFixed(cs, h, a)
            case L2Table(i) => i < h.l1Size && L1Of(b, h)[i] == a != 0
            case Data(i, j) => DataAt(b, cs, L1Of(b, h), i, j) == a != 0
            case RefBlock(t) => t < |table| && table[t] == a
            case _ => false
  {
    hide References, IsFixed, Healthy, BlocksWereFree, MapRefs, DataAt, L1Of;
    L1Length(b, h);
    if a in table {
      var t :| 0 <= t < |table| && table[t] == a;
      BlockRole(b, cs, h, table, t);
    } else {
      ReferenceKinds(b, cs, h, a);
      if !IsFixed(cs, h, a) {
        NotZero(cs, h, a);
        DataCases(b, cs, L1Of(b, h), a);
      }
    }
  }

  lemma NotZero(cs: nat, h: Header, a: nat)
    requires 0 < cs && !IsFixed(cs, h, a)
    ensures a != 0
  {
  }

  /** What is mapped is an L2 table or an entry of one. */
  lemma {:induction false} DataCases(b: seq<byte>, cs: nat, l1: seq<nat>, a: nat)
    requires cs % 8 == 0 && a in MapRefs(b, cs, l1)
    ensures (exists i :: 0 <= i < |l1| && l1[i] == a) || (exists i: nat, j: nat :: DataAt(b, cs, l1, i, j) == a)
  {
    hide DecodePointers, NonZero;
    var n := |l1| - 1;
    if a in MapRefs(b, cs, l1[..n]) {
      DataCases(b, cs, l1[..n], a);
      if i: nat, j: nat :| DataAt(b, cs, l1[..n], i, j) == a && i < n {
        assert DataAt(b, cs, l1, i, j) == a;
      } else if i: nat, j: nat :| DataAt(b, cs, l1[..n], i, j) == a {
        assert DataAt(b, cs, l1, |l1|, j) == a;
      }
    } else {
      assert a in TableRefs(b, cs, l1[n]);
      if a == l1[n] {
        assert l1[n] == a;
      } else {
        var t := DecodePointers(Cluster(cs, b, l1[n]), cs / 8, true);
        var j := NonZeroFrom(t, a);
        assert DataAt(b, cs, l1, n, j) == a;
      }
    }
  }

  lemma {:induction false} NonZeroFrom(t: seq<nat>, a: nat) returns (j: nat)
    requires a in NonZero(t)
    ensures j < |t| && t[j] == a
  {
    var n := |t| - 1;
    if a in NonZero(t[..n]) {
      j := NonZeroFrom(t[..n], a);
    } else {
      j := n;
    }
  }

  lemma FixedInFile(g: Geometry, b: seq<byte>, h: Header, b': seq<byte>, table: seq<nat>, a: nat)
    requires Restored(g, b, h, b', table) && IsFixed(g.clusterSize, h, a)
    ensures a < |b'|
  {
    hide Healthy, Matches, BlocksWereFree, CountsRestored, References, MapReadable, TableAt, TableEntries, Elsewhere;
    var cs := g.clusterSize;
    if a in L1Row(cs, h) {
      var k :| 0 <= k < |L1Row(cs, h)| && L1Row(cs, h)[k] == a;
      RowLength(h.l1TableOffset, cs, CeilDiv(h.l1Size, cs));
      RowMember(h.l1TableOffset, cs, CeilDiv(h.l1Size, cs), k);
      CeilBelow(h.l1Size, cs, k);
    } else if a in RefTableRow(cs, h) {
      var k :| 0 <= k < |RefTableRow(cs, h)| && RefTableRow(cs, h)[k] == a;
      RowLength(h.refcountTableOffset, cs, h.refcountTableClusters);
      RowMember(h.refcountTableOffset, cs, h.refcountTableClusters, k);
      MulMonotone(k + 1, h.refcountTableClusters, cs);
      assert (k + 1) * cs == k * cs + cs;
    }
  }

  lemma {:induction false} RowLength(start: nat, cs: nat, n: nat)
    ensures |Row(start, cs, n)| == n
  {
    if n > 0 {
      RowLength(start, cs, n - 1);
    }
  }

  lemma CeilBelow(n: nat, cs: nat, k: nat)
    requires 0 < cs && k < CeilDiv(n, cs)
    ensures k * cs < n
  {
    CeilCovers(n, cs);
    var c := CeilDiv(n, cs);
    assert n > 0;
    MulMonotone(k, c - 1, cs);
  }

  lemma RestoredOwned(g: Geometry, b: seq<byte>, h: Header, b': seq<byte>, table: seq<nat>)
    requires Restored(g, b, h, b', table) && Reaches(g, b, h, b', table) && ReachesLimit(g) && |b'| <= g.limit
    ensures OwnedOk(g, b', RestoredOwn(g, b, h, b', table))
  {
    hide Healthy, Rebuilt, ReachesLimit, References, IsFixed, RoleOf, Reserved, TailCluster, DataAt, Number, Relied;
    var cs, own := g.clusterSize, RestoredOwn(g, b, h, b', table);
    RestoredTops(g, b, h, b', table);
    forall a | a in own
      ensures a % cs == 0 && a < |b'| && a + cs <= g.limit && (!own[a].Fixed? ==> a + cs <= |b'|)
    {
      OwnPlace(g, b, h, b', table, a);
      NumberBelow(g, table, a);
    }
    forall a: nat | a % cs == 0 && (Reserved(g, a) || TailCluster(cs, |b'|, a))
      ensures a in own && own[a].Fixed?
    {
      if Reserved(g, a) {
        ReservedFixed(g, b, h, a);
      } else {
        TailFixed(g, b, h, b', table, a);
      }
      ReferenceKinds(b, cs, h, a);
      RoleFixed(b, cs, h, table, a);
      ReliedOn(g, h, b', a);
    }
    forall a: nat | TailCluster(cs, |b'|, a)
      ensures a % cs == 0
    {
      TailAligned(cs, |b'|, a);
    }
  }

  lemma ReliedOn(g: Geometry, h: Header, b': seq<byte>, a: nat)
    requires 0 < g.clusterSize
    requires a !in RefTableRow(g.clusterSize, h) || Reserved(g, a) || TailCluster(g.clusterSize, |b'|, a)
    ensures Relied(g, h, b', a)
  {
    hide Reserved, TailCluster, RefTableRow;
  }

  lemma TailAligned(cs: nat, n: nat, a: nat)
    requires 0 < cs && TailCluster(cs, n, a)
    ensures a % cs == 0
  {
  }

  lemma RoleFixed(b: seq<byte>, cs: nat, h: Header, table: seq<nat>, a: nat)
    requires 8 <= cs && cs % 8 == 0 && h.l1TableOffset + 8 * h.l1Size <= |b| && IsFixed(cs, h, a)
    ensures RoleOf(b, cs, h, table, a) == Fixed
  {
    hide IsFixed, DataAt, L1Of;
  }

  lemma RebuiltFree(b: seq<byte>, cs: nat, h: Header, b': seq<byte>, table: seq<nat>)
    requires 512 <= cs && cs % 8 == 0 && Rebuilt(b, cs, h, b', table) && h.l1TableOffset + 8 * h.l1Size <= |b|
    ensures BlocksWereFree(References(b, cs, h), cs, table)
  {
    hide BlocksWereFree, References, CountsRestored, MapReadable, TableAt, TableEntries, Elsewhere;
  }

  lemma OwnPlace(g: Geometry, b: seq<byte>, h: Header, b': seq<byte>, table: seq<nat>, a: nat)
    requires Restored(g, b, h, b', table) && a in References(b, g.clusterSize, h) + table
    ensures a % g.clusterSize == 0 && a < |b'|
    ensures !RoleOf(b, g.clusterSize, h, table, a).Fixed? ==> a + g.clusterSize <= |b'|
  {
    hide Healthy, Rebuilt, References, IsFixed, RoleOf, DataAt, L1Of;
    var cs := g.clusterSize;
    RebuiltFree(b, cs, h, b', table);
    OwnCases(b, cs, h, table, a);
    if a in table {
      var t :| 0 <= t < |table| && table[t] == a;
      BlockPlace(b, cs, h, b', table, t);
    } else {
      HealthyAligned(b, cs, h, a);
      ReferenceKinds(b, cs, h, a);
      if IsFixed(cs, h, a) {
        FixedInFile(g, b, h, b', table, a);
        RoleFixed(b, cs, h, table, a);
      } else {
        DataInFile(b, cs, h, b', table, a);
      }
    }
  }

  lemma DataInFile(b: seq<byte>, cs: nat, h: Header, b': seq<byte>, table: seq<nat>, a: nat)
    requires 512 <= cs && cs % 8 == 0 && Healthy(b, cs, h) && Rebuilt(b, cs, h, b', table)
    requires h.l1TableOffset + 8 * h.l1Size <= |b| && a in MappedRefs(b, cs, h)
    ensures a + cs <= |b'|
  {
    hide BlocksWereFree, References, CountsRestored, MapReadable, TableAt, TableEntries, Elsewhere, MappedRefs,
         Tally, IsFixed;
  }

  lemma ReservedFixed(g: Geometry, b: seq<byte>, h: Header, a: nat)
    requires 512 <= g.clusterSize && g.clusterSize % 8 == 0 && Matches(g, h) && Healthy(b, g.clusterSize, h)
    requires h.refcountTableOffset % g.clusterSize == 0 && a % g.clusterSize == 0 && Reserved(g, a)
    ensures IsFixed(g.clusterSize, h, a)
  {
    hide References, Tally, MappedRefs, TableEntries, MapReadable, NoLongerUsed, TailCluster, CeilDiv, TableRoom;
    var cs := g.clusterSize;
    if a != 0 {
      if a < g.l1Offset + 8 * g.l1Len && g.l1Offset < a + cs {
        if a < g.l1Offset {
          AlignedApart(cs, a, g.l1Offset);
        }
        InL1Row(cs, h, a, a);
      } else {
        if a < g.refTableOffset {
          AlignedApart(cs, a, g.refTableOffset);
        }
        InRefTable(cs, h, a, a);
      }
    }
  }

  /** The last cluster of the file, if it is cut off, is one of the fixed ones. */
  lemma TailFixed(g: Geometry, b: seq<byte>, h: Header, b': seq<byte>, table: seq<nat>, a: nat)
    requires Restored(g, b, h, b', table) && TailCluster(g.clusterSize, |b'|, a)
    ensures IsFixed(g.clusterSize, h, a)
  {
    hide References, Tally, MappedRefs, TableEntries, MapReadable, NoLongerUsed, CeilDiv, Elsewhere, CountsRestored,
         BlocksWereFree, TableAt, IsFixed, Matches, FreeBelow, TableRoom, Healthy;
    var cs, end := g.clusterSize, h.refcountTableOffset + TableRoom(g.clusterSize, h);
    if |b'| == |b| {
      TailWas(b, cs, h, a);
    } else if |b'| == end - 1 || |b'| == end {
      if |b'| == end {
        EndAligned(cs, h);
        AlignedApart(cs, a, end);
      } else {
        InRefTable(cs, h, a, end - 2);
        FixedRow(cs, h, a);
      }
    } else {
      var k :| 0 <= k < |table| && |b'| == table[k] + cs;
      BlockPlace(b, cs, h, b', table, k);
      NextAligned(cs, table[k]);
      AlignedApart(cs, a, table[k] + cs);
    }
  }

  lemma TailWas(b: seq<byte>, cs: nat, h: Header, a: nat)
    requires 8 <= cs && cs % 8 == 0 && Healthy(b, cs, h) && TailCluster(cs, |b|, a)
    ensures IsFixed(cs, h, a)
  {
    hide References, Tally, MappedRefs, MapReadable, NoLongerUsed, CeilDiv;
  }

  lemma EndAligned(cs: nat, h: Header)
    requires 0 < cs && h.refcountTableOffset % cs == 0
    ensures (h.refcountTableOffset + TableRoom(cs, h)) % cs == 0
  {
    var q := h.refcountTableOffset / cs;
    assert h.refcountTableOffset == cs * q;
    assert cs * q + h.refcountTableClusters * cs == cs * (q + h.refcountTableClusters);
    DivModUnique(h.refcountTableOffset + TableRoom(cs, h), cs, q + h.refcountTableClusters, 0);
  }

  lemma MappedRelied(g: Geometry, b: seq<byte>, h: Header, b': seq<byte>, a: nat)
    requires 8 <= g.clusterSize && g.clusterSize % 8 == 0 && Healthy(b, g.clusterSize, h)
    requires h.l1TableOffset + 8 * h.l1Size <= |b| && a in MappedRefs(b, g.clusterSize, h)
    ensures Relied(g, h, b', a)
  {
    hide Healthy, MappedRefs, Reserved, TailCluster;
    DataNotFixed(b, g.clusterSize, h, a);
  }

  lemma BlockRelied(g: Geometry, b: seq<byte>, h: Header, b': seq<byte>, table: seq<nat>, a: nat)
    requires 8 <= g.clusterSize && g.clusterSize % 8 == 0 && h.l1TableOffset + 8 * h.l1Size <= |b|
    requires BlocksWereFree(References(b, g.clusterSize, h), g.clusterSize, table) && a in table
    ensures Relied(g, h, b', a)
  {
    hide BlocksWereFree, References, Reserved, TailCluster, Row;
    BlockNotReferenced(References(b, g.clusterSize, h), g.clusterSize, table, a);
    ReferenceKinds(b, g.clusterSize, h, a);
  }

  lemma RestoredLinked(g: Geometry, b: seq<byte>, h: Header, b': seq<byte>, table: seq<nat>)
    requires Restored(g, b, h, b', table)
    ensures LinkedOk(g, Opened(g, b'), RestoredOwn(g, b, h, b', table))
  {
    hide Healthy, Rebuilt, References, IsFixed, RoleOf, DataAt, L1Of, DiskL1, DiskRefTable, Entry, Relied;
    var cs, s, own := g.clusterSize, Opened(g, b'), RestoredOwn(g, b, h, b', table);
    RebuiltFree(b, cs, h, b', table);
    RestoredTops(g, b, h, b', table);
    forall a | a in own
      ensures InPlace(s, a, own[a])
    {
      OwnCases(b, cs, h, table, a);
    }
    forall i | 0 <= i < |s.l2.top| && s.l2.top[i] != 0
      ensures s.l2.top[i] in own && own[s.l2.top[i]] == L2Table(i)
    {
      TableRole(b, cs, h, table, i);
      MappedRelied(g, b, h, b', s.l2.top[i]);
    }
    forall t | 0 <= t < |s.rc.top| && s.rc.top[t] != 0
      ensures s.rc.top[t] in own && own[s.rc.top[t]] == RefBlock(t)
    {
      assert s.rc.top[t] == table[t];
      BlockRole(b, cs, h, table, t);
      BlockRelied(g, b, h, b', table, table[t]);
    }
    forall i: nat, j: nat
      ensures var d := Entry(cs, s.bytes, s.l2, i, j); d != 0 ==> d in own && own[d] == Data(i, j)
    {
      EntriesKept(g, b, h, b', table, i, j);
      if DataAt(b, cs, L1Of(b, h), i, j) != 0 {
        DataRole(b, cs, h, table, i, j);
        MappedRelied(g, b, h, b', DataAt(b, cs, L1Of(b, h), i, j));
      }
    }
  }

  /** The count found for a cluster in use: the number of references where the rebuilt table reaches it, else 0. */
  lemma RestoredCount(g: Geometry, b: seq<byte>, h: Header, b': seq<byte>, table: seq<nat>, a: nat)
    requires Restored(g, b, h, b', table) && a in References(b, g.clusterSize, h) + table
    ensures Count(g, b', Opened(g, b').rc, a) >= 1 <==> Number(g.clusterSize, a) < |table| * (g.clusterSize / 2)
  {
    hide Healthy, Rebuilt, References, DiskRefTable, Tally, Entry, ZeroBlock;
    var cs, i := g.clusterSize, Number(g.clusterSize, a);
    RestoredTops(g, b, h, b', table);
    TallyIn(References(b, cs, h) + table, cs, a);
    SlotPart(i, cs / 2);
    if i < |table| * (cs / 2) {
      DivBelow(i, |table|, cs / 2);
      EntryPrefix(cs, b', table, g.refTableLen - |table|, i / (cs / 2), i % (cs / 2));
      StoredTally(b, cs, h, b', table, i);
    } else {
      DivAbove(i, |table|, cs / 2);
      EntryBehind(cs, b', table, g.refTableLen - |table|, i / (cs / 2), i % (cs / 2));
    }
  }

  lemma SlotPart(i: nat, n: nat)
    requires 0 < n
    ensures 0 <= i / n && 0 <= i % n
  {
    DivBelow(i, i + 1, n) by {
      MulMonotone(1, n, i + 1);
    }
  }

  lemma DivAbove(i: nat, r: nat, n: nat)
    requires 0 < n && r * n <= i
    ensures r <= i / n
  {
    var t := i / n;
    assert i == n * t + i % n;
    assert t < r ==> (t + 1) * n <= r * n;
  }

  lemma EntryPrefix(cs: nat, b: seq<byte>, table: seq<nat>, m: nat, t: nat, j: nat)
    requires t < |table|
    ensures Entry(cs, b, Level(Counts, table + ZeroBlock(m), map[]), t, j) ==
            Entry(cs, b, Level(Counts, table, map[]), t, j)
  {
    hide DecodeBlock;
  }

  lemma EntryBehind(cs: nat, b: seq<byte>, table: seq<nat>, m: nat, t: nat, j: nat)
    requires |table| <= t
    ensures Entry(cs, b, Level(Counts, table + ZeroBlock(m), map[]), t, j) == 0
  {
    hide DecodeBlock;
  }

  lemma StoredTally(b: seq<byte>, cs: nat, h: Header, b': seq<byte>, table: seq<nat>, i: nat)
    requires 512 <= cs && cs % 8 == 0 && Rebuilt(b, cs, h, b', table) && h.l1TableOffset + 8 * h.l1Size <= |b|
    requires i < |table| * (cs / 2)
    ensures StoredCount(cs, b', table, i) == Tally(References(b, cs, h) + table, cs, i)
  {
    hide BlocksWereFree, References, MapReadable, TableAt, TableEntries, Elsewhere, StoredCount, Tally;
  }

  lemma RestoredCounted(g: Geometry, b: seq<byte>, h: Header, b': seq<byte>, table: seq<nat>)
    requires Restored(g, b, h, b', table) && Reaches(g, b, h, b', table)
    ensures CountedOk(g, Opened(g, b'), RestoredOwn(g, b, h, b', table), {})
  {
    hide Restored, References, Count, RoleOf, Number, Relied;
    RestoredBasics(g, b, h, b', table);
    forall a | a in RestoredOwn(g, b, h, b', table)
      ensures Count(g, b', Opened(g, b').rc, a) >= 1
    {
      RestoredCount(g, b, h, b', table, a);
    }
  }

  lemma RestoredBasics(g: Geometry, b: seq<byte>, h: Header, b': seq<byte>, table: seq<nat>)
    requires Restored(g, b, h, b', table)
    ensures 512 <= g.clusterSize && g.clusterSize % 8 == 0 && h.l1TableOffset + 8 * h.l1Size <= |b| && InFile(g, b')
    ensures GeometryOk(g)
  {
    hide Healthy, Rebuilt, Matches;
  }

  /**
   * A healthy image is well formed after a rebuild, if the rebuilt table reaches every cluster the engine
   * relies on. `RebuiltExactly` shows that it has to.
   */
  lemma RebuiltWellFormed(g: Geometry, b: seq<byte>, h: Header, b': seq<byte>, table: seq<nat>)
    requires Restored(g, b, h, b', table) && CoverageOk(g) && Reaches(g, b, h, b', table)
    ensures WellFormed(g, b', RestoredOwn(g, b, h, b', table))
  {
    hide Restored, References, RoleOf, Reaches, Relied, CoverageOk, PlainOk, ShapeOk, OwnedOk, LinkedOk, CountedOk,
         DiskL1, DiskRefTable;
    RestoredBasics(g, b, h, b', table);
    CoverageSame(g);
    var own := RestoredOwn(g, b, h, b', table);
    if Readable(g, b') {
      RestoredShape(g, b, h, b', table);
      RestoredOwned(g, b, h, b', table);
      RestoredLinked(g, b, h, b', table);
      RestoredCounted(g, b, h, b', table);
      assert FrozenOk(Opened(g, b'), own, NOTHING_FROZEN);
    }
    forall a | a in own
      ensures Live(own[a])
    {
      RestoredLive(g, b, h, b', table, a);
    }
  }

  lemma CoverageSame(g: Geometry)
    requires 512 <= g.clusterSize && CoverageOk(g)
    ensures ReachesLimit(g)
  {
  }

  lemma RestoredLive(g: Geometry, b: seq<byte>, h: Header, b': seq<byte>, table: seq<nat>, a: nat)
    requires Restored(g, b, h, b', table) && a in References(b, g.clusterSize, h) + table
    ensures Live(RoleOf(b, g.clusterSize, h, table, a))
  {
    hide Healthy, Rebuilt, References, IsFixed, RoleOf, DataAt, L1Of;
    RebuiltFree(b, g.clusterSize, h, b', table);
    OwnCases(b, g.clusterSize, h, table, a);
  }

  /** The other direction, cluster by cluster. */
  lemma RebuildReaches(g: Geometry, b: seq<byte>, h: Header, b': seq<byte>, table: seq<nat>, own: map<nat, Role>,
                       a: nat)
    requires Restored(g, b, h, b', table) && Readable(g, b') && WellFormed(g, b', own)
    requires a in References(b, g.clusterSize, h) + table && Relied(g, h, b', a)
    ensures Number(g.clusterSize, a) < |table| * (g.clusterSize / 2)
  {
    hide Relied, Healthy, Rebuilt, References, IsFixed, RoleOf, DataAt, L1Of, Count, DiskL1, DiskRefTable, Number,
         Reserved, Entry, WellFormed, Readable;
    var cs := g.clusterSize;
    RebuiltFree(b, cs, h, b', table);
    RestoredTops(g, b, h, b', table);
    RestoredCount(g, b, h, b', table, a);
    OwnCases(b, cs, h, table, a);
    var r := RoleOf(b, cs, h, table, a);
    match r {
      case Fixed =>
        FixedReserved(g, b, h, b', table, a);
        if !Reserved(g, a) {
          TailCounted(g, b', own, a);
          return;
        }
      case Data(i, j) =>
        EntriesKept(g, b, h, b', table, i, j);
      case RefBlock(t) =>
        BlockNotReferenced(References(b, cs, h), cs, table, a);
        FixedRow(cs, h, 0);
        ReferenceKinds(b, cs, h, 0);
      case _ =>
    }
    InUseCounted(g, b', own, a, r);
  }

  /** The cut-off cluster at the end of a well-formed file is counted. */
  lemma TailCounted(g: Geometry, b: seq<byte>, own: map<nat, Role>, a: nat)
    requires WellFormed(g, b, own) && Readable(g, b) && TailCluster(g.clusterSize, |b|, a)
    ensures Count(g, b, Opened(g, b).rc, a) >= 1
  {
    hide CoverageOk, PlainOk, DiskL1, DiskRefTable, Entry, Count, Reserved, ShapeOk;
    assert a in own && own[a].Fixed?;
  }

  /**
   * After a rebuild that leaves a file which can be opened, some ledger makes the file well formed exactly
   * if the rebuilt table reaches every cluster the engine relies on.
   */
  lemma RebuiltExactly(g: Geometry, b: seq<byte>, h: Header, b': seq<byte>, table: seq<nat>)
    requires Restored(g, b, h, b', table) && CoverageOk(g) && Readable(g, b')
    ensures (exists own :: WellFormed(g, b', own)) <==> Reaches(g, b, h, b', table)
  {
    hide Restored, WellFormed, CoverageOk, Readable, Relied, References, Number;
    RestoredBasics(g, b, h, b', table);
    if Reaches(g, b, h, b', table) {
      RebuiltWellFormed(g, b, h, b', table);
      assert WellFormed(g, b', RestoredOwn(g, b, h, b', table));
    }
    if own :| WellFormed(g, b', own) {
      forall a | a in References(b, g.clusterSize, h) + table && Relied(g, h, b', a)
        ensures Number(g.clusterSize, a) < |table| * (g.clusterSize / 2)
      {
        RebuildReaches(g, b, h, b', table, own, a);
      }
    }
  }

  /** What a well-formed image uses, it counts. */
  lemma InUseCounted(g: Geometry, b: seq<byte>, own: map<nat, Role>, a: nat, r: Role)
    requires WellFormed(g, b, own) && Readable(g, b)
    requires var s := Opened(g, b);
             match r
             case Fixed => a % g.clusterSize == 0 && Reserved(g, a)
             case L2Table(i) => i < |s.l2.top| && s.l2.top[i] == a != 0
             case Data(i, j) => Entry(g.clusterSize, b, s.l2, i, j) == a != 0
             case RefBlock(t) => t < |s.rc.top| && s.rc.top[t] == a != 0
             case _ => false
    ensures Count(g, b, Opened(g, b).rc, a) >= 1
  {
    hide CoverageOk, PlainOk, DiskL1, DiskRefTable, Entry, Count, Reserved, ShapeOk;
    assert a in own && own[a] == r;
  }

  lemma FixedReserved(g: Geometry, b: seq<byte>, h: Header, b': seq<byte>, table: seq<nat>, a: nat)
    requires Restored(g, b, h, b', table) && IsFixed(g.clusterSize, h, a) && Relied(g, h, b', a)
    ensures a % g.clusterSize == 0 && (Reserved(g, a) || TailCluster(g.clusterSize, |b'|, a))
  {
    hide Healthy, Rebuilt, References;
    var cs := g.clusterSize;
    ReferenceKinds(b, cs, h, a);
    HealthyAligned(b, cs, h, a);
    if a in L1Row(cs, h) {
      var k :| 0 <= k < |L1Row(cs, h)| && L1Row(cs, h)[k] == a;
      RowLength(h.l1TableOffset, cs, CeilDiv(h.l1Size, cs));
      RowMember(h.l1TableOffset, cs, CeilDiv(h.l1Size, cs), k);
      CeilBelow(h.l1Size, cs, k);
    }
  }

  // What is on the disk.

  /** The mapping a reader of the file finds. */
  function FileMap(b: seq<byte>, h: Header): Level
    requires h.l1TableOffset + 8 * h.l1Size <= |b|
  {
    Level(Pointers, L1Of(b, h), map[])
  }

  lemma MapIsData(b: seq<byte>, cs: nat, h: Header, i: nat, j: nat)
    requires 8 <= cs && cs % 8 == 0 && h.l1TableOffset + 8 * h.l1Size <= |b|
    ensures Entry(cs, b, FileMap(b, h), i, j) == DataAt(b, cs, L1Of(b, h), i, j)
  {
    hide DecodePointers, L1Of;
  }

  /** The rebuild changes nothing on the virtual disk. */
  lemma RestoredContents(g: Geometry, b: seq<byte>, h: Header, b': seq<byte>, table: seq<nat>)
    requires Restored(g, b, h, b', table)
    ensures Contents(g, b', Opened(g, b').l2) == Contents(g, b, FileMap(b, h))
  {
    hide Restored, DiskL1, L1Of, Entry, FileMap;
    RestoredBasics(g, b, h, b', table);
    forall v: nat | v < g.size
      ensures ByteAt(g, b', Opened(g, b').l2, v) == ByteAt(g, b, FileMap(b, h), v)
    {
      var (i, j) := MapIndex(g, VirtualCluster(g, v));
      SameEntry(g, b, h, b', table, i, j);
      var d := Entry(g.clusterSize, b, FileMap(b, h), i, j);
      if d != 0 {
        MappedByte(g, b, h, b', table, i, j, ClusterOffset(g, v));
      }
    }
  }

  lemma SameEntry(g: Geometry, b: seq<byte>, h: Header, b': seq<byte>, table: seq<nat>, i: nat, j: nat)
    requires Restored(g, b, h, b', table)
    ensures Entry(g.clusterSize, b', Opened(g, b').l2, i, j) == Entry(g.clusterSize, b, FileMap(b, h), i, j)
  {
    hide Healthy, Rebuilt, Entry, L1Of, DiskL1, DataAt;
    EntriesKept(g, b, h, b', table, i, j);
    MapIsData(b, g.clusterSize, h, i, j);
  }

  lemma MappedByte(g: Geometry, b: seq<byte>, h: Header, b': seq<byte>, table: seq<nat>, i: nat, j: nat, off: nat)
    requires Restored(g, b, h, b', table) && off < g.clusterSize
    requires Entry(g.clusterSize, b, FileMap(b, h), i, j) != 0
    ensures var d := Entry(g.clusterSize, b, FileMap(b, h), i, j);
            ByteIn(b', d, off) == ByteIn(b, d, off)
  {
    hide Healthy, Rebuilt, Entry, L1Of, DataAt, RoleOf, FileMap, References, MappedRefs;
    var cs := g.clusterSize;
    var d := Entry(cs, b, FileMap(b, h), i, j);
    MapIsData(b, cs, h, i, j);
    RebuiltFree(b, cs, h, b', table);
    DataRole(b, cs, h, table, i, j);
    DataInFile(b, cs, h, b', table, d);
    DataWas(b, cs, h, d);
    ClusterKept(b, cs, h, b', table, d, d + off);
  }

  lemma DataWas(b: seq<byte>, cs: nat, h: Header, a: nat)
    requires 8 <= cs && cs % 8 == 0 && Healthy(b, cs, h)
    requires h.l1TableOffset + 8 * h.l1Size <= |b| && a in MappedRefs(b, cs, h)
    ensures a + cs <= |b|
  {
    hide References, Tally, MappedRefs, MapReadable, NoLongerUsed, CeilDiv, IsFixed;
  }

  /** What can be opened afterwards could have been opened before, but for its counts. */
  lemma RestoredReadable(g: Geometry, b: seq<byte>, h: Header, b': seq<byte>, table: seq<nat>)
    requires Restored(g, b, h, b', table) && Covered(g, b, h, table) && ReachesLimit(g)
    ensures Readable(g, b') <==> |b| <= g.limit && PlainOk(g.clusterSize, b, FileMap(b, h))
  {
    hide Restored, Covered, ReachesLimit, Plain, DiskL1, L1Of, Cluster;
    RestoredBasics(g, b, h, b', table);
    RestoredTops(g, b, h, b', table);
    RestoredSize(g, b, h, b', table);
    L1Length(b, h);
    var cs, l1 := g.clusterSize, L1Of(b, h);
    forall i | 0 <= i < |l1| && l1[i] != 0
      ensures l1[i] + cs <= |b| <= |b'| && Cluster(cs, b', l1[i]) == Cluster(cs, b, l1[i])
    {
      RestoredTable(g, b, h, b', table, i);
    }
    SamePlain(cs, b, b', FileMap(b, h), Opened(g, b').l2);
  }

  lemma RestoredTable(g: Geometry, b: seq<byte>, h: Header, b': seq<byte>, table: seq<nat>, i: nat)
    requires Restored(g, b, h, b', table) && i < h.l1Size && L1Of(b, h)[i] != 0
    ensures var a := L1Of(b, h)[i];
            a + g.clusterSize <= |b| <= |b'| && Cluster(g.clusterSize, b', a) == Cluster(g.clusterSize, b, a)
  {
    hide Healthy, Rebuilt, L1Of, Cluster;
    TableKept(b, g.clusterSize, h, b', table, i);
  }

  lemma SamePlain(cs: nat, b: seq<byte>, b': seq<byte>, lv: Level, lv': Level)
    requires lv'.top == lv.top && lv'.kind == lv.kind && lv.cache == lv'.cache == map[] && |b| <= |b'|
    requires forall i :: 0 <= i < |lv.top| && lv.top[i] != 0 ==>
               lv.top[i] + cs <= |b| && Cluster(cs, b', lv.top[i]) == Cluster(cs, b, lv.top[i])
    ensures PlainOk(cs, b', lv') <==> PlainOk(cs, b, lv)
  {
    hide Plain, Cluster;
    assert forall i :: IsDirty(lv.cache, i) == IsDirty(lv'.cache, i) == false;
  }

  /** The file grows no further than the refcount table reaches. */
  lemma RestoredSize(g: Geometry, b: seq<byte>, h: Header, b': seq<byte>, table: seq<nat>)
    requires Restored(g, b, h, b', table) && Covered(g, b, h, table) && ReachesLimit(g)
    ensures |b| <= |b'| && (|b'| <= g.limit <==> |b| <= g.limit)
  {
    hide Healthy, Covered, ReachesLimit, References, Tally, Matches, BlocksWereFree, CountsRestored, MapReadable,
         TableAt, TableEntries, Elsewhere, TableRoom;
    var cs := g.clusterSize;
    RestoredTops(g, b, h, b', table);
    var last := h.refcountTableOffset + TableRoom(cs, h) - cs;
    LastCluster(cs, h);
    FixedRow(cs, h, last);
    ReferenceKinds(b, cs, h, last);
    CoveredBelow(g, b, h, table, last);
    if |b'| != |b| && |b'| != LastTouched(cs, h) + 1 && |b'| != LastTouched(cs, h) + 2 {
      var k :| 0 <= k < |table| && |b'| == table[k] + cs;
      BlockPlace(b, cs, h, b', table, k);
      CoveredBelow(g, b, h, table, table[k]);
    }
  }

  lemma LastCluster(cs: nat, h: Header)
    requires 0 < cs <= TableRoom(cs, h) && h.refcountTableOffset % cs == 0
    ensures var last := h.refcountTableOffset + TableRoom(cs, h) - cs; last in RefTableRow(cs, h) && last % cs == 0
  {
    var n := h.refcountTableClusters;
    assert n > 0;
    assert (n - 1) * cs == n * cs - cs;
    RowMember(h.refcountTableOffset, cs, n, n - 1);
    var last := h.refcountTableOffset + (n - 1) * cs;
    var q := h.refcountTableOffset / cs;
    assert h.refcountTableOffset == cs * q;
    assert cs * q + (n - 1) * cs == cs * (q + n - 1);
    DivModUnique(last, cs, q + n - 1, 0);
  }
}
