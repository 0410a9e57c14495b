/**
 * Opening an image: reading the tables, refusing compressed clusters, and listing the clusters
 * without references as available.
 */
module QcowOpens {
  import opened Wrappers
  import opened Arithmetic
  import opened HostBytes
  import opened PointerTables
  import opened VecCaches
  import opened CachedTables
  import opened Journals
  import opened QcowImage
  import opened QcowSteps
  import opened QcowCommit
  import opened QcowCounting
  import opened QcowMapping
  import opened QcowRawFiles
  import opened RefCounts
  import opened QcowFiles

  /** The state right after the tables are read from the file is `Opened`. What makes a file usable: */
  ghost predicate Readable(g: Geometry, b: seq<byte>)
    requires InFile(g, b)
  {
    |b| <= g.limit && PlainOk(g.clusterSize, b, Opened(g, b).l2)
  }

  /**
   * A file whose tables are consistent: `own` says what its clusters are used for, every cluster in
   * use has a count. Whether it can be opened is for `Open` to find out.
   */
  ghost predicate WellFormed(g: Geometry, b: seq<byte>, own: map<nat, Role>) {
    && GeometryOk(g) && CoverageOk(g) && InFile(g, b)
    && (Readable(g, b) ==> Inv(g, Opened(g, b), Ledger(own, {}, NOTHING_FROZEN)))
    && (forall a :: a in own ==> Live(own[a]) || own[a].Dropped?)
  }

  /** A cluster nobody uses can be taken into the ledger. */
  lemma Adopt(g: Geometry, s: Image, k: Ledger, a: nat)
    requires Inv(g, s, k) && a % g.clusterSize == 0 && a < |s.bytes| && a !in k.own
    ensures Inv(g, s, k.(own := k.own[a := Dropped]))
  {
    assert !TailCluster(g.clusterSize, |s.bytes|, a);
    FitsLimit(g, s.bytes, a);
  }

  lemma FitsLimit(g: Geometry, b: seq<byte>, a: nat)
    requires 0 < g.clusterSize && a % g.clusterSize == 0 && a + g.clusterSize <= |b| <= g.limit
    ensures a + g.clusterSize <= g.limit
  {
  }

  lemma SameShape(g: Geometry, s: Image, s': Image)
    requires ShapeOk(g, s) && s' == s.(avail := s'.avail)
    ensures ShapeOk(g, s')
  {
  }

  function Listed(s: Image, a: nat): Image {
    s.(avail := s.avail + [a])
  }

  /** A cluster without references goes on the list of available ones. */
  lemma ListAvail(g: Geometry, s: Image, k: Ledger, a: nat)
    requires Inv(g, s, k) && a in k.own && k.own[a] == Dropped && a !in k.frozen.blocks && a !in k.frozen.slots
    ensures Inv(g, Listed(s, a), k.(own := k.own[a := Avail(|s.avail|)]))
  {
    hide ShapeOk, OwnedOk, MappedOk, CountedOk;
    var s', own' := Listed(s, a), k.own[a := Avail(|s.avail|)];
    InvShape(g, s, k);
    ChangeRole(g, s.bytes, k.own, a, Avail(|s.avail|));
    SameBlocksRefl(g.clusterSize, s.bytes, s.l2);
    SameBlocksRefl(g.clusterSize, s.bytes, s.rc);
    RelinkedMap(g, s, k, s', own');
    RelinkedCounts(g, s, k, s', k.(own := own'));
    SameShape(g, s, s');
  }

  /** The clusters below `n` that have no references. */
  ghost predicate ZeroCounted(g: Geometry, b: seq<byte>, rc: Level, n: nat, avail: seq<nat>)
    requires 2 <= g.clusterSize
  {
    && (forall i, j :: 0 <= i < j < |avail| ==> avail[i] < avail[j])
    && (forall a: nat :: a in avail <==> a % g.clusterSize == 0 && a < n && Count(g, b, rc, a) == 0)
  }

  lemma ListNext(g: Geometry, b: seq<byte>, rc: Level, n: nat, avail: seq<nat>)
    requires 2 <= g.clusterSize && n % g.clusterSize == 0 && ZeroCounted(g, b, rc, n, avail)
    ensures ZeroCounted(g, b, rc, n + g.clusterSize, if Count(g, b, rc, n) == 0 then avail + [n] else avail)
    ensures (n + g.clusterSize) % g.clusterSize == 0
  {
    hide Count;
    NextAligned(g.clusterSize, n);
    var avail' := if Count(g, b, rc, n) == 0 then avail + [n] else avail;
    forall a: nat
      ensures a in avail' <==> a % g.clusterSize == 0 && a < n + g.clusterSize && Count(g, b, rc, a) == 0
    {
      if a % g.clusterSize == 0 && a != n {
        AlignedApart(g.clusterSize, a, n);
      }
      assert a in avail ==> a < n;
      assert a in avail' <==> a in avail || (a == n && Count(g, b, rc, n) == 0);
    }
    forall i, j | 0 <= i < j < |avail'|
      ensures avail'[i] < avail'[j]
    {
      assert avail'[i] in avail;
    }
  }

  /** Every cluster below the limit that is in the ledger is used, dropped or already listed. */
  ghost predicate Scanned(k: Ledger, n: nat) {
    && (forall a :: a in k.own ==> Live(k.own[a]) || k.own[a].Dropped? || (k.own[a].Avail? && a < n))
    && (forall a :: a in k.frozen.blocks ==> a in k.own && !k.own[a].Dropped?)
    && (forall d :: d in k.frozen.slots ==> d in k.own && !k.own[d].Dropped?)
  }

  /**
   * Lists one more cluster if it has no references. A cluster in use always has one, so it is never
   * listed.
   */
  method ScanCluster(q: QcowFile, i: nat)
    requires q.Valid() && i % q.g.clusterSize == 0 && i < |q.raw.bytes| && Scanned(q.ledger, i)
    modifies q`availClusters, q`ledger, q.raw, q.refcounts`refblockCache
    ensures q.Valid() && Scanned(q.ledger, i + q.g.clusterSize) && Continued(old(q.raw.journal), q.raw.journal)
    ensures Quiet(q.g, old(q.Snap()), q.Snap()) && |q.raw.bytes| == |old(q.raw.bytes)|
    ensures q.availClusters == if Count(q.g, old(q.raw.bytes), old(q.Snap()).rc, i) == 0
                               then old(q.availClusters) + [i] else old(q.availClusters)
  {
    hide Inv, CommittedOk, JournalOk, CoverageOk, Contents, Quiet, LevelOk, Count, SameAreas, Scanned, Continued,
         Listed;
    ghost var g, s0, k0 := q.g, q.Snap(), q.ledger;
    if i !in q.ledger.own {
      Adopt(g, s0, q.ledger, i);
      q.ledger := q.ledger.(own := q.ledger.own[i := Dropped]);
    }
    ScannedMore(k0, q.ledger, i, g.clusterSize, q.availClusters);
    var refcount := q.RefcountOf(i);
    if refcount.value == 0 {
      QuietFacts(g, s0, q.Snap(), 0, i);
      ZeroIsFree(g, q.Snap(), q.ledger, i);
      ghost var s1 := q.Snap();
      ListAvail(g, s1, q.ledger, i);
      q.ledger := q.ledger.(own := q.ledger.own[i := Avail(|q.availClusters|)]);
      q.availClusters := q.availClusters + [i];
      ListedIs(s1, q.Snap(), i);
      QuietListed(g, s0, s1, i);
    }
  }

  lemma ListedIs(s: Image, s': Image, a: nat)
    requires s' == s.(avail := s.avail + [a])
    ensures s' == Listed(s, a)
  {
  }

  /** The cluster at `a` was looked at: it may be taken into the ledger, and listed if it is dropped. */
  lemma ScannedMore(k: Ledger, k': Ledger, a: nat, n: nat, avail: seq<nat>)
    requires Scanned(k, a) && 0 < n
    requires k' == if a in k.own then k else k.(own := k.own[a := Dropped])
    ensures Scanned(k', a + n) && Scanned(k'.(own := k'.own[a := Avail(|avail|)]), a + n)
    ensures a in k'.own && !Live(k'.own[a]) ==>
              k'.own[a] == Dropped && a !in k'.frozen.blocks && a !in k'.frozen.slots
  {
  }

  lemma ZeroIsFree(g: Geometry, s: Image, k: Ledger, a: nat)
    requires Inv(g, s, k) && a in k.own && a !in k.pending && Count(g, s.bytes, s.rc, a) == 0
    ensures !Live(k.own[a])
  {
  }

  lemma QuietListed(g: Geometry, s: Image, s': Image, a: nat)
    requires 8 <= g.clusterSize && Quiet(g, s, s')
    ensures Quiet(g, s, Listed(s', a))
  {
  }

  lemma ListNone(g: Geometry, b: seq<byte>, rc: Level)
    requires 2 <= g.clusterSize
    ensures ZeroCounted(g, b, rc, 0, [])
  {
  }

  /** The scan stops behind the last cluster that starts within the file. */
  lemma ListedAll(g: Geometry, b: seq<byte>, rc: Level, n: nat, i: nat, avail: seq<nat>)
    requires 2 <= g.clusterSize && i % g.clusterSize == 0 && n <= i < n + g.clusterSize
    requires ZeroCounted(g, b, rc, i, avail)
    ensures ZeroCounted(g, b, rc, n, avail)
  {
    hide Count;
    forall a: nat | a % g.clusterSize == 0 && a < i
      ensures a < n
    {
      AlignedApart(g.clusterSize, a, i);
    }
    assert forall a: nat :: a in avail <==> a % g.clusterSize == 0 && a < i && Count(g, b, rc, a) == 0;
  }

  /** Scans the file for clusters without references. */
  method FindAvailClusters(q: QcowFile)
    requires q.Valid() && q.availClusters == [] && Scanned(q.ledger, 0)
    modifies q`availClusters, q`ledger, q.raw, q.refcounts`refblockCache
    ensures q.Valid() && q.Disk() == old(q.Disk()) && Continued(old(q.raw.journal), q.raw.journal)
    ensures ZeroCounted(q.g, old(q.raw.bytes), old(q.Snap()).rc, |old(q.raw.bytes)|, q.availClusters)
    ensures |q.raw.bytes| == |old(q.raw.bytes)|
  {
    hide Inv, CommittedOk, JournalOk, CoverageOk, Contents, Quiet, Count, SameAreas, Continued, Scanned, ZeroCounted;
    ghost var g, s0, j0 := q.g, q.Snap(), q.raw.journal;
    var fileSize, cs := |q.raw.bytes|, q.raw.clusterSize;
    q.SoundBasics();
    QuietSelf(g, s0, q.ledger);
    ContinuedSelf(j0);
    ListNone(g, s0.bytes, s0.rc);
    var i := 0;
    while i < fileSize
      invariant q.Valid() && |q.raw.bytes| == fileSize && i % cs == 0 && i < fileSize + cs
      invariant Scanned(q.ledger, i) && Continued(j0, q.raw.journal) && Quiet(g, s0, q.Snap())
      invariant ZeroCounted(g, s0.bytes, s0.rc, i, q.availClusters)
    {
      ghost var s1, j1 := q.Snap(), q.raw.journal;
      QuietFacts(g, s0, s1, 0, i);
      ListNext(g, s0.bytes, s0.rc, i, q.availClusters);
      ScanCluster(q, i);
      QuietTrans(g, s0, s1, q.Snap());
      ContinuedTrans(j0, j1, q.raw.journal);
      i := i + cs;
    }
    QuietFacts(g, s0, q.Snap(), 0, 0);
    ListedAll(g, s0.bytes, s0.rc, fileSize, i, q.availClusters);
  }

  /** The journal of a file right after opening: what its tables point to is protected. */
  function StartJournal(g: Geometry, b: seq<byte>, own: map<nat, Role>): Journal
    requires InFile(g, b)
  {
    Started(b, Commit(0, g.l1Offset, g.l1Len, Referenced(DiskL1(g, b))),
            Commit(0, g.refTableOffset, g.refTableLen, Referenced(DiskRefTable(g, b))), DataSlots(own))
  }

  function StartLedger(g: Geometry, b: seq<byte>, own: map<nat, Role>): Ledger
    requires InFile(g, b)
  {
    Ledger(own, {}, Frozen(Referenced(DiskL1(g, b)) + Referenced(DiskRefTable(g, b)), DataSlots(own)))
  }

  lemma StartOk(g: Geometry, b: seq<byte>, own: map<nat, Role>)
    requires WellFormed(g, b, own) && Readable(g, b)
    ensures Inv(g, Opened(g, b), StartLedger(g, b, own))
    ensures JournalOk(g.clusterSize, b, StartJournal(g, b, own))
    ensures Scanned(StartLedger(g, b, own), 0)
  {
    hide Inv, DiskL1, DiskRefTable, PlainOk, CoverageOk, BookOk, SlotsFound, SlotsOk;
    var s, k, k' := Opened(g, b), Ledger(own, {}, NOTHING_FROZEN), StartLedger(g, b, own);
    DataSlotsOk(own);
    FreezeTables(g, s, k, k'.frozen);
    ReferencedRoles(g, s, k);
    StartBooks(g, b, k);
    SlotsOnDisk(g, s, k);
  }

  lemma StartBooks(g: Geometry, b: seq<byte>, k: Ledger)
    requires InFile(g, b) && Inv(g, Opened(g, b), k)
    ensures BookOk(g.clusterSize, [b], StartJournal(g, b, k.own).mapBook)
    ensures BookOk(g.clusterSize, [b], StartJournal(g, b, k.own).refBook)
  {
    hide Inv, DecodePointers, Referenced;
    ReferencedInFile(g, Opened(g, b), k);
  }

  lemma StartCommitted(g: Geometry, b: seq<byte>, own: map<nat, Role>)
    requires InFile(g, b)
    ensures CommittedOk(g, b, StartLedger(g, b, own).frozen, StartJournal(g, b, own),
                        VecCache(DiskL1(g, b), false), VecCache(DiskRefTable(g, b), false))
  {
    hide DiskL1, DiskRefTable;
  }

  lemma ReferencedRoles(g: Geometry, s: Image, k: Ledger)
    requires Inv(g, s, k)
    ensures forall a :: a in Referenced(s.l2.top) ==> a in k.own && k.own[a].L2Table?
    ensures forall a :: a in Referenced(s.rc.top) ==> a in k.own && k.own[a].RefBlock?
  {
  }

  lemma LimitPositive(g: Geometry, s: Image, k: Ledger)
    requires Inv(g, s, k)
    ensures 0 < g.limit
  {
    assert Reserved(g, 0);
  }

  /** The last cluster with a refcount slot ends at the limit. */
  lemma LimitOk(g: Geometry)
    requires GeometryOk(g) && CoverageOk(g) && 0 < g.limit
    ensures 0 < g.refTableLen && (g.refTableLen * (g.clusterSize / 2) - 1) * g.clusterSize + g.clusterSize == g.limit
  {
    var n := g.refTableLen * (g.clusterSize / 2);
    assert (n - 1) * g.clusterSize + g.clusterSize == n * g.clusterSize;
  }

  lemma TableLengths(g: Geometry, b: seq<byte>)
    requires InFile(g, b)
    ensures |DiskL1(g, b)| == g.l1Len && |DiskRefTable(g, b)| == g.refTableLen
  {
  }

  /** No L2 table of the file has a compressed entry. */
  method AllPlain(g: Geometry, raw: QcowRawFile, l1: seq<nat>) returns (plain: bool)
    requires GeometryOk(g) && raw.clusterSize == g.clusterSize && InFile(g, raw.bytes) && l1 == DiskL1(g, raw.bytes)
    ensures plain <==> PlainOk(g.clusterSize, raw.bytes, Opened(g, raw.bytes).l2)
  {
    hide Plain, AnyCompressed, DecodePointers, DecodeBlock, Cluster;
    TableLengths(g, raw.bytes);
    for i := 0 to |l1|
      invariant forall k :: 0 <= k < i && l1[k] != 0 && l1[k] + g.clusterSize <= |raw.bytes| ==>
                  Plain(Pointers, g.clusterSize, Cluster(g.clusterSize, raw.bytes, l1[k]))
    {
      if l1[i] != 0 {
        var table := QcowFile.ReadL2Cluster(raw, l1[i]);
        if table == Err(ENOTSUP) {
          NotPlain(g, raw.bytes, i);
          return false;
        }
        TablePlain(g, raw.bytes, l1[i]);
      }
    }
    return true;
  }

  /** Puts the parts of an image that can be opened together. */
  method Assemble(g: Geometry, raw: QcowRawFile, l1: seq<nat>, refTable: seq<nat>, ghost own: map<nat, Role>)
    returns (q: QcowFile)
    requires WellFormed(g, raw.bytes, own) && Readable(g, raw.bytes) && raw.clusterSize == g.clusterSize
    requires l1 == DiskL1(g, raw.bytes) && refTable == DiskRefTable(g, raw.bytes)
    modifies raw`journal
    ensures fresh(q) && fresh(q.refcounts) && q.raw == raw && q.g == g && q.Valid()
    ensures q.Snap() == Opened(g, raw.bytes) && Scanned(q.ledger, 0) && q.currentOffset == 0
    ensures raw.journal == StartJournal(g, raw.bytes, own)
  {
    hide Inv, CoverageOk, CommittedOk, JournalOk, PlainOk, Scanned, DiskL1, DiskRefTable, Referenced, WellFormed;
    Usable(g, raw.bytes, own);
    StartOk(g, raw.bytes, own);
    StartCommitted(g, raw.bytes, own);
    LimitPositive(g, Opened(g, raw.bytes), StartLedger(g, raw.bytes, own));
    LimitOk(g);
    TableLengths(g, raw.bytes);
    var refcounts := new RefCount(g.clusterSize, g.refTableOffset, refTable);
    raw.journal := StartJournal(g, raw.bytes, own);
    q := new QcowFile(g, raw, refcounts, l1, StartLedger(g, raw.bytes, own));
    assert q.Snap() == Opened(g, raw.bytes);
  }

  /**
   * Opens the image in a file with consistent tables. It is refused exactly when an L2 table has a
   * compressed entry, or when the file is longer than its refcount table can describe (the scan for
   * available clusters would then ask for a count that has no place in the table).
   */
  method Open(g: Geometry, b: seq<byte>, ghost own: map<nat, Role>) returns (r: IoResult<QcowFile>)
    requires WellFormed(g, b, own)
    ensures r.Ok? <==> Readable(g, b)
    ensures r.Err? ==> r.error == if PlainOk(g.clusterSize, b, Opened(g, b).l2) then EINVAL else ENOTSUP
    ensures r.Ok? ==>
              var q := r.value;
              && fresh(q) && fresh(q.raw) && fresh(q.refcounts) && q.g == g && q.Valid()
              && q.Disk() == Contents(g, b, Opened(g, b).l2) && q.currentOffset == 0
              && Continued(StartJournal(g, b, own), q.raw.journal)
              && ZeroCounted(g, b, Opened(g, b).rc, |b|, q.availClusters) && q.unrefClusters == []
              && |q.raw.bytes| == |b|
  {
    hide Inv, CoverageOk, JournalOk, CommittedOk, Contents, PlainOk, Scanned, ZeroCounted, Continued, DecodePointers,
         QcowFile.Valid, GeometryOk;
    Usable(g, b, own);
    EmptyJournal(g.clusterSize, b);
    var raw := new QcowRawFile(g.clusterSize, b, Started(b, Commit(0, 0, 0, {}), Commit(0, 0, 0, {}), map[]));
    var l1 := raw.ReadPointerTable(g.l1Offset, g.l1Len, true);
    var refTable := raw.ReadPointerTable(g.refTableOffset, g.refTableLen, false);
    var plain := AllPlain(g, raw, l1.value);
    if !plain {
      return Err(ENOTSUP);
    }
    if |b| > g.limit {
      return Err(EINVAL);
    }
    var q := Assemble(g, raw, l1.value, refTable.value, own);
    FindAvailClusters(q);
    return Ok(q);
  }

  lemma Usable(g: Geometry, b: seq<byte>, own: map<nat, Role>)
    requires WellFormed(g, b, own)
    ensures GeometryOk(g) && CoverageOk(g) && InFile(g, b)
    ensures 512 <= g.clusterSize && g.clusterSize % 8 == 0
  {
    hide Readable, CoverageOk, Inv;
  }

  lemma EmptyJournal(cs: nat, b: seq<byte>)
    ensures JournalOk(cs, b, Started(b, Commit(0, 0, 0, {}), Commit(0, 0, 0, {}), map[]))
  {
    var j := Started(b, Commit(0, 0, 0, {}), Commit(0, 0, 0, {}), map[]);
    assert BookOk(cs, [b], j.mapBook) && BookOk(cs, [b], j.refBook);
  }

  lemma TablePlain(g: Geometry, b: seq<byte>, a: nat)
    requires a + g.clusterSize <= |b| ==> !AnyCompressed(Cluster(g.clusterSize, b, a), g.clusterSize / 8)
    ensures a + g.clusterSize <= |b| ==> Plain(Pointers, g.clusterSize, Cluster(g.clusterSize, b, a))
  {
  }

  lemma NotPlain(g: Geometry, b: seq<byte>, i: nat)
    requires InFile(g, b) && i < g.l1Len && DiskL1(g, b)[i] != 0 && DiskL1(g, b)[i] + g.clusterSize <= |b|
    requires AnyCompressed(Cluster(g.clusterSize, b, DiskL1(g, b)[i]), g.clusterSize / 8)
    ensures !PlainOk(g.clusterSize, b, Opened(g, b).l2)
  {
    assert !IsDirty(Opened(g, b).l2.cache, i);
  }
}
