/** Committing the top-level tables, releasing freed clusters, and opening the file again. */
module QcowCommit {
  import opened HostBytes
  import opened PointerTables
  import opened VecCaches
  import opened CachedTables
  import opened Journals
  import opened QcowImage
  import opened QcowSteps

  function FixedClusters(own: map<nat, Role>): set<nat> {
    set a | a in own && own[a].Fixed?
  }

  /** A write inside a reserved area changes no cluster of any other role. */
  lemma WriteArea(g: Geometry, s: Image, k: Ledger, off: nat, d: seq<byte>)
    requires Inv(g, s, k) && off + |d| <= |s.bytes|
    requires (off == g.l1Offset && |d| == 8 * g.l1Len) || (off == g.refTableOffset && |d| == 8 * g.refTableLen)
    ensures var s' := s.(bytes := Splice(s.bytes, off, d));
            && Inv(g, s', k)
            && SameBlocks(g.clusterSize, s.bytes, s.l2, s'.bytes, s.l2)
            && SameBlocks(g.clusterSize, s.bytes, s.rc, s'.bytes, s.rc)
            && Contents(g, s'.bytes, s.l2) == Contents(g, s.bytes, s.l2)
            && SameClusters(g.clusterSize, s.bytes, s'.bytes, FixedClusters(k.own))
  {
    var cs, b', xs := g.clusterSize, Splice(s.bytes, off, d), FixedClusters(k.own);
    forall a: nat | a % cs == 0 && a + cs <= |s.bytes| && a !in xs
      ensures Cluster(cs, b', a) == Cluster(cs, s.bytes, a)
    {
      assert !Reserved(g, a);
      SpliceApart(s.bytes, off, d, a, a + cs);
    }
    BytesFrame(g, s, k, b', xs);
    ContentsFrame(g, s, k, s.(bytes := b'), xs);
    hide Inv;
  }

  lemma TopsArePointers(g: Geometry, s: Image, k: Ledger)
    requires Inv(g, s, k)
    ensures forall i :: 0 <= i < |s.l2.top| ==> IsPointer(s.l2.top[i])
    ensures forall t :: 0 <= t < |s.rc.top| ==> IsPointer(s.rc.top[t])
  {
    forall i | 0 <= i < |s.l2.top|
      ensures IsPointer(s.l2.top[i])
    {
      if s.l2.top[i] != 0 { OwnedIsPointer(g, s.bytes, k.own, s.l2.top[i]); }
    }
    forall t | 0 <= t < |s.rc.top|
      ensures IsPointer(s.rc.top[t])
    {
      if s.rc.top[t] != 0 { OwnedIsPointer(g, s.bytes, k.own, s.rc.top[t]); }
    }
  }

  function L1Written(g: Geometry, s: Image): Image
    requires InFile(g, s.bytes) && |s.l2.top| == g.l1Len
  {
    s.(bytes := Splice(s.bytes, g.l1Offset, EncodePointers(s.l2.top, false)))
  }

  /** Writing the L1 table makes the file's own table the one in memory. */
  lemma WriteL1(g: Geometry, s: Image, k: Ledger)
    requires Inv(g, s, k)
    ensures Inv(g, L1Written(g, s), k)
    ensures SameBlocks(g.clusterSize, s.bytes, s.l2, L1Written(g, s).bytes, s.l2)
    ensures SameBlocks(g.clusterSize, s.bytes, s.rc, L1Written(g, s).bytes, s.rc)
    ensures Contents(g, L1Written(g, s).bytes, s.l2) == Contents(g, s.bytes, s.l2)
    ensures SameClusters(g.clusterSize, s.bytes, L1Written(g, s).bytes, FixedClusters(k.own))
    ensures DiskL1(g, L1Written(g, s).bytes) == s.l2.top
    ensures RefTableArea(g, L1Written(g, s).bytes) == RefTableArea(g, s.bytes)
  {
    var d := EncodePointers(s.l2.top, false);
    WriteArea(g, s, k, g.l1Offset, d);
    TopsArePointers(g, s, k);
    PointersRoundTrip(s.l2.top, false, true);
    assert L1Area(g, L1Written(g, s).bytes) == d;
    SpliceApart(s.bytes, g.l1Offset, d, g.refTableOffset, g.refTableOffset + 8 * g.refTableLen);
    hide Inv;
  }

  function RefTableWritten(g: Geometry, s: Image): Image
    requires InFile(g, s.bytes) && |s.rc.top| == g.refTableLen
  {
    s.(bytes := Splice(s.bytes, g.refTableOffset, EncodePointers(s.rc.top, false)))
  }

  lemma WriteRefTable(g: Geometry, s: Image, k: Ledger)
    requires Inv(g, s, k)
    ensures Inv(g, RefTableWritten(g, s), k)
    ensures SameBlocks(g.clusterSize, s.bytes, s.l2, RefTableWritten(g, s).bytes, s.l2)
    ensures SameBlocks(g.clusterSize, s.bytes, s.rc, RefTableWritten(g, s).bytes, s.rc)
    ensures Contents(g, RefTableWritten(g, s).bytes, s.l2) == Contents(g, s.bytes, s.l2)
    ensures SameClusters(g.clusterSize, s.bytes, RefTableWritten(g, s).bytes, FixedClusters(k.own))
    ensures DiskRefTable(g, RefTableWritten(g, s).bytes) == s.rc.top
    ensures L1Area(g, RefTableWritten(g, s).bytes) == L1Area(g, s.bytes)
  {
    var d := EncodePointers(s.rc.top, false);
    WriteArea(g, s, k, g.refTableOffset, d);
    TopsArePointers(g, s, k);
    PointersRoundTrip(s.rc.top, false, false);
    assert RefTableArea(g, RefTableWritten(g, s).bytes) == d;
    SpliceApart(s.bytes, g.refTableOffset, d, g.l1Offset, g.l1Offset + 8 * g.l1Len);
    hide Inv;
  }

  /** With every cached block written, the blocks the tables in memory use may be frozen. */
  lemma FreezeTables(g: Geometry, s: Image, k: Ledger, frozen: Frozen)
    requires Inv(g, s, k) && SlotsOk(k.own, frozen.slots)
    requires forall a :: a in frozen.blocks ==>
               || a in k.frozen.blocks
               || (a in Referenced(s.l2.top) && AllClean(s.l2.cache))
               || (a in Referenced(s.rc.top) && AllClean(s.rc.cache))
    ensures Inv(g, s, k.(frozen := frozen))
  {
    forall a | a in frozen.blocks
      ensures a in k.own && Still(s, k.own[a])
    {
    }
  }

  /** The data clusters in use, each with the entry that points to it. */
  function DataSlots(own: map<nat, Role>): map<nat, (nat, nat)> {
    map d | d in own && own[d].Data? :: (own[d].i, own[d].j)
  }

  lemma DataSlotsOk(own: map<nat, Role>)
    ensures SlotsOk(own, DataSlots(own))
  {
  }

  lemma FreezeL1(g: Geometry, s: Image, k: Ledger, refFrozen: set<nat>)
    requires Inv(g, s, k) && AllClean(s.l2.cache) && refFrozen <= k.frozen.blocks
    ensures Inv(g, s, k.(frozen := Frozen(Referenced(s.l2.top) + refFrozen, DataSlots(k.own))))
  {
    hide Inv, SlotsOk, DataSlots;
    DataSlotsOk(k.own);
    FreezeTables(g, s, k, Frozen(Referenced(s.l2.top) + refFrozen, DataSlots(k.own)));
  }

  lemma FreezeRefTable(g: Geometry, s: Image, k: Ledger, mapFrozen: set<nat>)
    requires Inv(g, s, k) && AllClean(s.rc.cache) && mapFrozen <= k.frozen.blocks
    ensures Inv(g, s, k.(frozen := Frozen(mapFrozen + Referenced(s.rc.top), k.frozen.slots)))
  {
    FreezeTables(g, s, k, Frozen(mapFrozen + Referenced(s.rc.top), k.frozen.slots));
  }

  /** With every L2 table written, the entries on disk are those in memory. */
  lemma SlotIsEntry(g: Geometry, s: Image, i: nat, j: nat)
    requires ShapeOk(g, s) && AllClean(s.l2.cache) && DiskL1(g, s.bytes) == s.l2.top
    ensures DiskSlot(g.clusterSize, g.l1Offset, g.l1Len, true, s.bytes, i, j) ==
            Entry(g.clusterSize, s.bytes, s.l2, i, j)
  {
    hide DecodePointers, DecodeBlock, LevelOk, SameBlocks, GeometryOk;
    UncachedSame(g.clusterSize, s.bytes, s.l2);
    SameEntries(g.clusterSize, s.bytes, s.l2, s.l2.(cache := map[]), i, j);
  }

  lemma SameEntries(cs: nat, b: seq<byte>, lv: Level, lv': Level, i: nat, j: nat)
    requires SameBlocks(cs, b, lv, b, lv')
    ensures Entry(cs, b, lv', i, j) == Entry(cs, b, lv, i, j)
  {
    hide Block;
    assert Block(cs, b, lv', i) == Block(cs, b, lv, i);
  }

  lemma SlotsOnDisk(g: Geometry, s: Image, k: Ledger)
    requires Inv(g, s, k) && AllClean(s.l2.cache) && DiskL1(g, s.bytes) == s.l2.top
    ensures SlotsFound(g.clusterSize, g.l1Offset, g.l1Len, true, s.bytes, DataSlots(k.own))
    ensures forall d :: d in DataSlots(k.own) ==> d + g.clusterSize <= |s.bytes|
  {
    hide ShapeOk, Entry, DiskSlot, CountedOk, FrozenOk, PlacesOk, AllClean, DiskL1;
    forall i: nat, j: nat
      ensures DiskSlot(g.clusterSize, g.l1Offset, g.l1Len, true, s.bytes, i, j) ==
              Entry(g.clusterSize, s.bytes, s.l2, i, j)
    {
      SlotIsEntry(g, s, i, j);
    }
  }

  lemma ReferencedInFile(g: Geometry, s: Image, k: Ledger)
    requires Inv(g, s, k)
    ensures forall a :: a in Referenced(s.l2.top) ==> a + g.clusterSize <= |s.bytes|
    ensures forall a :: a in Referenced(s.rc.top) ==> a + g.clusterSize <= |s.bytes|
  {
  }

  /** Once both tables are committed no frozen cluster is queued for reuse. */
  lemma NoUnrefFrozen(g: Geometry, s: Image, k: Ledger)
    requires Inv(g, s, k) && k.frozen == Frozen(Referenced(s.l2.top) + Referenced(s.rc.top), DataSlots(k.own))
    ensures NoneQueued(k)
  {
  }

  function Released(s: Image): Image {
    s.(avail := s.avail + s.unref, unref := [])
  }

  function ReleasedOwn(n: nat, own: map<nat, Role>): map<nat, Role> {
    map a | a in own :: if own[a].Unref? then Avail(n + own[a].k) else own[a]
  }

  /** Nothing the tables on disk use is queued for reuse. */
  ghost predicate NoneQueued(k: Ledger) {
    && (forall a :: a in k.frozen.blocks && a in k.own ==> !k.own[a].Unref?)
    && (forall d :: d in k.frozen.slots && d in k.own ==> !k.own[d].Unref?)
  }

  /** Freed clusters become available once no committed table uses them. */
  lemma Release(g: Geometry, s: Image, k: Ledger)
    requires Inv(g, s, k) && NoneQueued(k)
    ensures Inv(g, Released(s), k.(own := ReleasedOwn(|s.avail|, k.own)))
  {
    var s', own' := Released(s), ReleasedOwn(|s.avail|, k.own);
    assert own'.Keys == k.own.Keys;
    ReleasePlaces(s, k);
    RelinkedMap(g, s, k, s', own');
    RelinkedCounts(g, s, k, s', k.(own := own'));
  }

  lemma ReleasePlaces(s: Image, k: Ledger)
    requires PlacesOk(s, k.own)
    ensures PlacesOk(Released(s), ReleasedOwn(|s.avail|, k.own))
  {
    var s', own' := Released(s), ReleasedOwn(|s.avail|, k.own);
    forall n | 0 <= n < |s'.avail|
      ensures s'.avail[n] in own' && own'[s'.avail[n]] == Avail(n)
    {
      if n >= |s.avail| {
        var u := s.unref[n - |s.avail|];
        assert k.own[u] == Unref(n - |s.avail|);
      }
    }
    forall a | a in own'
      ensures InPlace(s', a, own'[a])
    {
      assert InPlace(s, a, k.own[a]);
    }
  }

  /** The frozen clusters lie outside both table areas. */
  lemma FrozenApart(g: Geometry, s: Image, k: Ledger, a: nat)
    requires Inv(g, s, k) && a in k.frozen.blocks
    ensures a + g.clusterSize <= |s.bytes| && !Reserved(g, a)
  {
  }

  /** All refcount blocks were written, and nothing else. */
  lemma FlushedRc(g: Geometry, s: Image, k: Ledger, s': Image)
    requires Inv(g, s, k)
    requires s' == s.(bytes := s'.bytes, rc := s'.rc) && s'.rc.top == s.rc.top && s'.rc.kind == s.rc.kind
    requires LevelOk(g.clusterSize, s'.bytes, s'.rc) && AllClean(s'.rc.cache)
    requires SameBlocks(g.clusterSize, s.bytes, s.rc, s'.bytes, s'.rc)
    requires SameOutside(g.clusterSize, s.bytes, s'.bytes, s.rc.top)
    ensures Inv(g, s', k) && Quiet(g, s, s')
  {
    var xs := Referenced(s.rc.top);
    OutsideClusters(g, s, k, s'.bytes);
    OutsideAreas(g, s, k, s'.bytes);
    LevelFrame(g.clusterSize, s.bytes, s'.bytes, s.l2, xs);
    SameBlocksKeep(g, s, k, s');
    ContentsFrame(g, s, k, s', xs);
  }

  lemma OutsideClusters(g: Geometry, s: Image, k: Ledger, b': seq<byte>)
    requires Inv(g, s, k) && SameOutside(g.clusterSize, s.bytes, b', s.rc.top)
    ensures SameClusters(g.clusterSize, s.bytes, b', Referenced(s.rc.top))
  {
    var cs := g.clusterSize;
    forall a: nat | a % cs == 0 && a + cs <= |s.bytes| && a !in Referenced(s.rc.top)
      ensures Cluster(cs, b', a) == Cluster(cs, s.bytes, a)
    {
      forall p | a <= p < a + cs
        ensures b'[p] == s.bytes[p]
      {
        OutsideOther(g, s, k, a, p);
      }
    }
  }

  lemma OutsideOther(g: Geometry, s: Image, k: Ledger, a: nat, p: nat)
    requires Inv(g, s, k) && a % g.clusterSize == 0 && a !in Referenced(s.rc.top) && a <= p < a + g.clusterSize
    ensures Outside(g.clusterSize, s.rc.top, p)
  {
    forall t | 0 <= t < |s.rc.top| && s.rc.top[t] != 0
      ensures p < s.rc.top[t] || s.rc.top[t] + g.clusterSize <= p
    {
      assert s.rc.top[t] in s.rc.top;
      AlignedApart(g.clusterSize, a, s.rc.top[t]);
    }
  }

  lemma OutsideAreas(g: Geometry, s: Image, k: Ledger, b': seq<byte>)
    requires Inv(g, s, k) && SameOutside(g.clusterSize, s.bytes, b', s.rc.top)
    ensures SameAreas(g, s.bytes, b')
  {
    forall p | (g.l1Offset <= p < g.l1Offset + 8 * g.l1Len)
               || (g.refTableOffset <= p < g.refTableOffset + 8 * g.refTableLen)
      ensures b'[p] == s.bytes[p]
    {
      OutsideReserved(g, s, k, p);
    }
  }

  lemma OutsideReserved(g: Geometry, s: Image, k: Ledger, p: nat)
    requires Inv(g, s, k)
    requires (g.l1Offset <= p < g.l1Offset + 8 * g.l1Len)
          || (g.refTableOffset <= p < g.refTableOffset + 8 * g.refTableLen)
    ensures Outside(g.clusterSize, s.rc.top, p)
  {
    forall t | 0 <= t < |s.rc.top| && s.rc.top[t] != 0
      ensures p < s.rc.top[t] || s.rc.top[t] + g.clusterSize <= p
    {
      assert !Reserved(g, s.rc.top[t]);
    }
  }

  // Opening.

  /** The state right after the tables are read from the file. */
  function Opened(g: Geometry, b: seq<byte>): Image
    requires InFile(g, b)
  {
    Image(b, Level(Pointers, DiskL1(g, b), map[]), Level(Counts, DiskRefTable(g, b), map[]), [], [])
  }

  /** A clean file: everything the tables in memory say is on disk. */
  ghost predicate Settled(g: Geometry, s: Image) {
    && InFile(g, s.bytes)
    && DiskL1(g, s.bytes) == s.l2.top && AllClean(s.l2.cache)
    && DiskRefTable(g, s.bytes) == s.rc.top && AllClean(s.rc.cache)
  }

  function ReopenedOwn(own: map<nat, Role>): map<nat, Role> {
    map a | a in own :: if Live(own[a]) then own[a] else Dropped
  }

  lemma UncachedSame(cs: nat, b: seq<byte>, lv: Level)
    requires LevelOk(cs, b, lv) && AllClean(lv.cache)
    ensures LevelOk(cs, b, lv.(cache := map[])) && SameBlocks(cs, b, lv, b, lv.(cache := map[]))
  {
    forall i: nat
      ensures Block(cs, b, lv.(cache := map[]), i) == Block(cs, b, lv, i)
    {
      if i in lv.cache { assert CachedOk(cs, b, lv, i); }
    }
  }

  /** Opening a flushed file finds the same blocks, the same disk and the same counts. */
  lemma Reopen(g: Geometry, s: Image, k: Ledger)
    requires Inv(g, s, k) && k.pending == {} && Settled(g, s)
    ensures Inv(g, Opened(g, s.bytes), Ledger(ReopenedOwn(k.own), {}, NOTHING_FROZEN))
    ensures Contents(g, s.bytes, Opened(g, s.bytes).l2) == Contents(g, s.bytes, s.l2)
    ensures forall a: nat :: Count(g, s.bytes, Opened(g, s.bytes).rc, a) == Count(g, s.bytes, s.rc, a)
  {
    var s', own' := Opened(g, s.bytes), ReopenedOwn(k.own);
    UncachedSame(g.clusterSize, s.bytes, s.l2);
    UncachedSame(g.clusterSize, s.bytes, s.rc);
    forall a: nat
      ensures Count(g, s.bytes, s'.rc, a) == Count(g, s.bytes, s.rc, a)
    {
      SameCount(g, s.bytes, s.rc, s.bytes, s'.rc, a);
    }
    ContentsFrame(g, s, k, s', {});
    assert own'.Keys == k.own.Keys;
    RelinkedMap(g, s, k, s', own');
    RelinkedCounts(g, s, k, s', Ledger(own', {}, NOTHING_FROZEN));
    ReopenPlaces(s, k.own, s');
  }

  lemma ReopenPlaces(s: Image, own: map<nat, Role>, s': Image)
    requires PlacesOk(s, own)
    requires s'.l2.top == s.l2.top && s'.rc.top == s.rc.top && s'.avail == [] && s'.unref == []
    ensures PlacesOk(s', ReopenedOwn(own))
  {
    var own' := ReopenedOwn(own);
    forall a | a in own'
      ensures InPlace(s', a, own'[a])
    {
      assert InPlace(s, a, own[a]);
    }
  }
}
