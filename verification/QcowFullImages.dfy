/** An image without a free cluster, at the point where an L2 table would have to move. */
module QcowFullImages {
  import opened HostBytes
  import opened PointerTables
  import opened VecCaches
  import opened CachedTables
  import opened QcowImage
  import opened QcowSteps
  import opened QcowCounting
  import opened QcowMapping

  /** 256 clusters of 512 bytes: header, L1 table, refcount table, and one cluster of virtual disk. */
  const FULL: Geometry := Geometry(512, 512, 512, 1, 1024, 1, 0x2_0000)

  const L2_AT: nat := 1536
  const BLOCK_AT: nat := 2048
  const DATA_AT: nat := 2560

  /** The L2 table is read and empty, every count is one, and the file is as long as it can get. */
  function FullImage(): Image {
    Image(Zeros(0x2_0000), Level(Pointers, [L2_AT], map[0 := VecCache(ZeroBlock(64), false)]),
          Level(Counts, [BLOCK_AT], map[0 := VecCache(seq(256, _ => 1), true)]), [], [])
  }

  function FullLedger(): Ledger {
    Ledger(map[0 := Fixed, 512 := Fixed, 1024 := Fixed, L2_AT := L2Table(0), BLOCK_AT := RefBlock(0), DATA_AT := Held],
           {}, NOTHING_FROZEN)
  }

  /**
   * The new data cluster is at hand, but there is none for the L2 table, which is clean: mapping it fails
   * after the cluster of the table, still in use, was queued for reuse.
   */
  lemma FullImageFails()
    ensures GeometryOk(FULL) && CoverageOk(FULL) && Inv(FULL, FullImage(), FullLedger())
    ensures Mappable(FULL, FullImage(), FullLedger(), 0, DATA_AT) && MapIndex(FULL, 0) == (0, 0)
    ensures !IsDirty(FullImage().l2.cache, 0) && FreeClusters(FULL, FullImage()) == 0
  {
    hide GeometryOk, CoverageOk, ShapeOk, OwnedOk, LinkedOk, CountedOk, FullLedger, FullImage, MapIndex, Mappable,
         IsDirty, FreeClusters;
    FullShape();
    FullOwned();
    FullLinked();
    FullCounted();
    FullMappable();
  }

  lemma FullShape()
    ensures GeometryOk(FULL) && CoverageOk(FULL) && ShapeOk(FULL, FullImage())
  {
    var s := FullImage();
    PointerBlockOfZeros(512);
    ZerosPlain(Pointers, 512);
    assert Cluster(512, s.bytes, L2_AT) == Zeros(512);
    assert CachedOk(512, s.bytes, s.l2, 0);
    assert CachedOk(512, s.bytes, s.rc, 0);
    hide DecodePointers, AnyCompressed;
  }

  lemma FullOwned()
    ensures OwnedOk(FULL, FullImage().bytes, FullLedger().own)
  {
    hide Zeros;
    FullLength();
  }

  lemma FullLength()
    ensures |FullImage().bytes| == 0x2_0000
  {
  }

  lemma FullLinked()
    ensures LinkedOk(FULL, FullImage(), FullLedger().own)
    ensures FrozenOk(FullImage(), FullLedger().own, FullLedger().frozen) && FullLedger().pending == {}
  {
    hide DecodeBlock;
    forall i: nat, j: nat
      ensures Entry(512, FullImage().bytes, FullImage().l2, i, j) == 0
    {
    }
  }

  lemma FullCounted()
    ensures CountedOk(FULL, FullImage(), FullLedger().own, {})
    ensures Count(FULL, FullImage().bytes, FullImage().rc, DATA_AT) >= 1
  {
    forall a | a in FullLedger().own
      ensures Count(FULL, FullImage().bytes, FullImage().rc, a) == 1
    {
      assert a <= DATA_AT && a / 512 / 256 == 0 && a / 512 % 256 < 256;
    }
  }

  lemma FullMappable()
    ensures Mappable(FULL, FullImage(), FullLedger(), 0, DATA_AT) && MapIndex(FULL, 0) == (0, 0)
    ensures !IsDirty(FullImage().l2.cache, 0) && FreeClusters(FULL, FullImage()) == 0
  {
    FullCounted();
    FullLength();
    assert EndAddress(FULL, FullImage().bytes) == 0x2_0000;
    assert Cluster(512, FullImage().bytes, DATA_AT) == Zeros(512);
    hide Count;
  }
}
