/** Where a new image keeps its tables, and how large they are. */
module QcowLayouts {
  import opened QcowImage
  import opened QcowHeaders

  const DEFAULT_CLUSTER_BITS: nat := 16
  const CLUSTER_SIZE: nat := 65536           // 1 << DEFAULT_CLUSTER_BITS
  const REFCOUNT_BYTES: nat := 2             // (1 << DEFAULT_REFCOUNT_ORDER) / 8
  const MAX_QCOW_FILE_SIZE: nat := 0x1000_0000_0000
  const FOUR_TIB: nat := 0x400_0000_0000
  const U32: nat := 0x1_0000_0000

  /** Number of refcount blocks for `numClusters` clusters and for the blocks themselves. */
  function MaxRefcountClusters(clusterSize: nat, numClusters: nat): nat
    requires 0 < clusterSize
  {
    var forData := CeilDiv(numClusters * REFCOUNT_BYTES, clusterSize);
    forData + CeilDiv(forData * REFCOUNT_BYTES, clusterSize)
  }

  // Sizes in clusters, in the 32-bit arithmetic of the header.

  function NumClusters(size: nat): nat {
    CeilDiv(size, CLUSTER_SIZE) % U32
  }

  function NumL2Clusters(size: nat): nat {
    CeilDiv(NumClusters(size), CLUSTER_SIZE / 8)
  }

  /** The clusters of the L1 table, computed from its entries as if each were one byte. */
  function L1Clusters(size: nat): nat {
    CeilDiv(NumL2Clusters(size), CLUSTER_SIZE)
  }

  function MetadataAndData(size: nat): nat {
    (NumClusters(size) + L1Clusters(size) + NumL2Clusters(size) + 1) % U32
  }

  function CreateForSize(version: nat, size: nat): Header {
    Header(version, 0, 0, DEFAULT_CLUSTER_BITS, size, 0, NumL2Clusters(size), CLUSTER_SIZE,
           CLUSTER_SIZE * (L1Clusters(size) + 1) % U32,
           CeilDiv(MaxRefcountClusters(CLUSTER_SIZE, MetadataAndData(size)) % U32 * 8 % U32, CLUSTER_SIZE),
           0, 0, 0, 0, 0, DEFAULT_REFCOUNT_ORDER,
           if version == 2 then V2_BARE_HEADER_SIZE else V3_BARE_HEADER_SIZE)
  }

  /** The geometry an image with this header is opened with. */
  function OpenedGeometry(size: nat): Geometry {
    var h := CreateForSize(3, size);
    var blocks := MaxRefcountClusters(CLUSTER_SIZE, MetadataAndData(size));
    Geometry(CLUSTER_SIZE, size, h.l1TableOffset, NumL2Clusters(size), h.refcountTableOffset, blocks,
             blocks * (CLUSTER_SIZE / 2) * CLUSTER_SIZE)
  }

  /** Header, L1 table and refcount table are aligned and do not overlap. */
  predicate AreasApart(h: Header) {
    && h.l1TableOffset % CLUSTER_SIZE == 0 && h.refcountTableOffset % CLUSTER_SIZE == 0
    && CLUSTER_SIZE <= h.l1TableOffset
    && h.l1TableOffset + 8 * h.l1Size <= h.refcountTableOffset
  }

  /** None of the 32-bit computations wraps around. */
  lemma NoWrapAround(version: nat, size: nat)
    requires size <= MAX_QCOW_FILE_SIZE
    ensures NumClusters(size) == CeilDiv(size, CLUSTER_SIZE) <= 0x1000_0000
    ensures NumL2Clusters(size) <= 0x8000 && L1Clusters(size) <= 1
    ensures MetadataAndData(size) == NumClusters(size) + L1Clusters(size) + NumL2Clusters(size) + 1
    ensures CreateForSize(version, size).refcountTableOffset == CLUSTER_SIZE * (L1Clusters(size) + 1)
  {
    CeilBound(size, CLUSTER_SIZE, 0x1000_0000);
    CeilBound(NumClusters(size), 8192, 0x8000);
    CeilBound(NumL2Clusters(size), CLUSTER_SIZE, 1);
    hide CeilDiv;
  }

  lemma CeilBound(a: nat, b: nat, n: nat)
    requires 0 < b && a <= n * b
    ensures CeilDiv(a, b) <= n
  {
    var q := a / b;
    assert a == b * q + a % b && n * b == b * n;
    assert n < q ==> b * (n + 1) <= b * q;
    assert n == q ==> b * n == b * q;
  }

  /** The areas are apart exactly up to 4 TiB: beyond, the L1 table runs into the refcount table. */
  lemma LayoutApart(version: nat, size: nat)
    requires size <= MAX_QCOW_FILE_SIZE
    ensures AreasApart(CreateForSize(version, size)) <==> size <= FOUR_TIB
  {
    NoWrapAround(version, size);
    var n := NumL2Clusters(size);
    assert size <= FOUR_TIB <==> n <= 8192;
  }

  lemma LayoutOverlaps(version: nat)
    ensures !AreasApart(CreateForSize(version, FOUR_TIB + 1))
    ensures CreateForSize(version, FOUR_TIB + 1).l1Size == 8193
  {
    LayoutApart(version, FOUR_TIB + 1);
  }

  /** The refcount blocks have a slot for every cluster and for every block that counts data. */
  lemma BlocksHoldCounts(clusterSize: nat, numClusters: nat)
    requires 2 <= clusterSize && clusterSize % 2 == 0
    ensures MaxRefcountClusters(clusterSize, numClusters) * (clusterSize / 2) >=
            numClusters + CeilDiv(numClusters * REFCOUNT_BYTES, clusterSize)
  {
    hide CeilDiv;
    var n := clusterSize / 2;
    var forData := CeilDiv(numClusters * 2, clusterSize);
    var forRefcounts := CeilDiv(forData * 2, clusterSize);
    CeilCovers(numClusters * 2, clusterSize);
    CeilCovers(forData * 2, clusterSize);
    HalfOf(forData, clusterSize, numClusters);
    HalfOf(forRefcounts, clusterSize, forData);
    assert (forData + forRefcounts) * n == forData * n + forRefcounts * n;
  }

  lemma HalfOf(a: nat, c: nat, b: nat)
    requires c % 2 == 0 && a * c >= b * 2
    ensures a * (c / 2) >= b
  {
    var n := c / 2;
    assert c == 2 * n;
    assert a * (2 * n) == 2 * (a * n);
  }

  lemma CeilCovers(a: nat, b: nat)
    requires 0 < b
    ensures CeilDiv(a, b) * b >= a
    ensures a > 0 ==> (CeilDiv(a, b) - 1) * b < a
  {
    var q := a / b;
    assert a == b * q + a % b;
    assert (q + 1) * b == b * q + b && q * b == b * q && (q - 1) * b == b * q - b;
  }

  /** How many refcount blocks a new image may need, and that their pointers fit the table. */
  lemma TableHoldsPointers(version: nat, size: nat)
    requires size <= MAX_QCOW_FILE_SIZE
    ensures 2 <= MaxRefcountClusters(CLUSTER_SIZE, MetadataAndData(size)) <= 0x2003
    ensures 8 * MaxRefcountClusters(CLUSTER_SIZE, MetadataAndData(size)) <=
            CreateForSize(version, size).refcountTableClusters * CLUSTER_SIZE
    ensures 1 <= CreateForSize(version, size).refcountTableClusters <= 2
  {
    hide MaxRefcountClusters, NumClusters, NumL2Clusters, L1Clusters, MetadataAndData;
    NoWrapAround(version, size);
    BlocksBound(MetadataAndData(size));
    TableClustersBound(MaxRefcountClusters(CLUSTER_SIZE, MetadataAndData(size)));
  }

  lemma TableClustersBound(blocks: nat)
    requires 2 <= blocks <= 0x2003
    ensures var clusters := CeilDiv(blocks % U32 * 8 % U32, CLUSTER_SIZE);
            1 <= clusters <= 2 && 8 * blocks <= clusters * CLUSTER_SIZE
  {
  }

  lemma BlocksBound(m: nat)
    requires 1 <= m <= 0x1000_8002
    ensures 1 <= CeilDiv(m * 2, CLUSTER_SIZE) <= 0x2002
    ensures CeilDiv(CeilDiv(m * 2, CLUSTER_SIZE) * 2, CLUSTER_SIZE) == 1
    ensures 2 <= MaxRefcountClusters(CLUSTER_SIZE, m) <= 0x2003
  {
  }

  /**
   * A new image has a refcount slot for every cluster it can ever use: header, tables, all of its
   * data, and the refcount blocks themselves.
   */
  lemma EveryClusterCounted(version: nat, size: nat)
    requires size <= MAX_QCOW_FILE_SIZE
    ensures var blocks := MaxRefcountClusters(CLUSTER_SIZE, MetadataAndData(size));
            OpenedGeometry(size).limit >=
            (MetadataAndData(size) + CreateForSize(version, size).refcountTableClusters + blocks) * CLUSTER_SIZE
  {
    NoWrapAround(version, size);
    TableHoldsPointers(version, size);
    var m := MetadataAndData(size);
    BlocksBound(m);
    CeilCovers(m * 2, CLUSTER_SIZE);
  }

  /** The layout is one the image engine can work on exactly when the areas are apart. */
  lemma LayoutUsable(size: nat)
    requires size <= MAX_QCOW_FILE_SIZE
    ensures CoverageOk(OpenedGeometry(size))
    ensures GeometryOk(OpenedGeometry(size)) <==> size <= FOUR_TIB
  {
    NoWrapAround(3, size);
    TableHoldsPointers(3, size);
    LayoutApart(3, size);
  }
}
