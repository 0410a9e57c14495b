/** Opening an image file from its bytes alone, creating a new image, and converting into one. */
module QcowCreations {
  import opened Wrappers
  import opened Arithmetic
  import opened HostBytes
  import opened PointerTables
  import opened VecCaches
  import opened CachedTables
  import opened Journals
  import opened QcowImage
  import opened QcowCommit
  import opened QcowCounting
  import opened QcowRawFiles
  import opened QcowFiles
  import opened QcowOpens
  import opened QcowHeaders
  import opened QcowLayouts
  import opened QcowRebuilds
  import opened QcowRestores
  import opened QcowConversions

  datatype OpenError =
    | BadHeader(e: HeaderError) | UnsupportedVersion | InvalidL1TableSize | InvalidClusterSize | FileTooBig
    | BackingFilesNotSupported | UnsupportedRefcountOrder | NoRefcountClusters | InvalidOffset | RefcountTableOffEnd
    | Rebuilding | TooManyL1Entries | RefcountTableTooLarge | TooManyRefcounts | ReadingRefCounts
    | CompressedBlocksNotSupported | GettingRefcount | WritingData

  // The header.

  function Shift(bits: nat): (n: nat)
    ensures 0 < n
  {
    if bits == 0 then 1 else 2 * Shift(bits - 1)
  }

  lemma ShiftRange(bits: nat)
    requires 9 <= bits <= 21
    ensures 512 <= Shift(bits) <= 0x20_0000 && Shift(bits) % 512 == 0 && Shift(bits) % 8 == 0
  {
    ShiftOfNine();
    ShiftAdd(9, bits - 9);
    ShiftAdd(bits, 21 - bits);
    MulMonotone(1, Shift(bits - 9), 512);
    MulMonotone(1, Shift(21 - bits), Shift(bits));
    MultipleAligned(512, Shift(bits - 9));
    AlignedWeaken(Shift(bits), 512, 8);
  }

  lemma ShiftOfNine()
    ensures Shift(9) == 512 && Shift(21) == 0x20_0000
  {
    assert Shift(3) == 8;
    ShiftAdd(3, 3);
    ShiftAdd(6, 3);
    ShiftAdd(9, 9);
    ShiftAdd(18, 3);
  }

  lemma {:induction false} ShiftAdd(a: nat, b: nat)
    ensures Shift(a + b) == Shift(a) * Shift(b)
  {
    if b > 0 {
      ShiftAdd(a, b - 1);
      Doubled(Shift(a), Shift(b - 1));
    }
  }

  lemma Doubled(x: nat, y: nat)
    ensures x * (2 * y) == 2 * (x * y)
  {
  }

  lemma ShiftOfSixteen()
    ensures Shift(16) == CLUSTER_SIZE
  {
    assert Shift(4) == 16;
    ShiftAdd(4, 4);
    ShiftAdd(8, 8);
  }

  /** The checks of the header, in order. */
  function CheckHeader(h: Header, fileSize: nat): Option<OpenError> {
    if h.version != 2 && h.version != 3 then Some(UnsupportedVersion)
    else if h.l1Size > MAX_RAM_POINTER_TABLE_SIZE then Some(InvalidL1TableSize)
    else if !(9 <= h.clusterBits <= 21) then Some(InvalidClusterSize)
    else if h.size > MAX_QCOW_FILE_SIZE then Some(FileTooBig)
    else if h.backingFileOffset != 0 then Some(BackingFilesNotSupported)
    else if h.refcountOrder != DEFAULT_REFCOUNT_ORDER then Some(UnsupportedRefcountOrder)
    else if h.refcountTableClusters == 0 then Some(NoRefcountClusters)
    else
      var cs := Shift(h.clusterBits);
      if h.l1TableOffset % cs != 0 || h.snapshotsOffset % cs != 0 || h.refcountTableOffset % cs != 0
      then Some(InvalidOffset)
      else if h.refcountTableOffset > fileSize && h.refcountTableOffset > h.size then Some(RefcountTableOffEnd)
      else None
  }

  function WordAt(b: seq<byte>, p: nat, n: nat): nat
    requires p + n <= |b|
  {
    FromBigEndian(b[p..p + n])
  }

  /** The count of the first cluster can be looked up. */
  predicate FirstCountInFile(b: seq<byte>, h: Header) {
    && h.refcountTableOffset + 8 <= |b|
    && var block := WordAt(b, h.refcountTableOffset, 8); block != 0 ==> block + 2 <= |b|
  }

  /** The first cluster always has a reference; if it has none on disk, the counts are not to be trusted. */
  predicate NeedsRebuild(b: seq<byte>, h: Header)
    requires FirstCountInFile(b, h)
  {
    var block := WordAt(b, h.refcountTableOffset, 8);
    block == 0 || WordAt(b, block, 2) == 0 || h.compatibleFeatures % 2 == LAZY_REFCOUNTS
  }

  // What the header says about sizes.

  function L1Entries(cs: nat, size: nat): nat
    requires 8 <= cs
  {
    CeilDiv(CeilDiv(size, cs), cs / 8)
  }

  function RefcountClusters(cs: nat, size: nat): nat
    requires 8 <= cs
  {
    var l2 := L1Entries(cs, size);
    MaxRefcountClusters(cs, (CeilDiv(size, cs) + CeilDiv(l2, cs) + l2 + CeilDiv(V3_BARE_HEADER_SIZE, cs)) % U32)
  }

  /** Where the last cluster ends that `blocks` refcount blocks have a slot for. */
  function Reach(cs: nat, blocks: nat): nat {
    var slots: nat := blocks * (cs / 2);
    slots * cs
  }

  function GeometryOf(cs: nat, h: Header): Geometry
    requires 8 <= cs
  {
    var blocks := RefcountClusters(cs, h.size);
    Geometry(cs, h.size, h.l1TableOffset, L1Entries(cs, h.size), h.refcountTableOffset, blocks, Reach(cs, blocks))
  }

  /** Why an image is refused once its counts are in order; `b` is the file as it was given. */
  ghost function SizeRefusal(b: seq<byte>, cs: nat, h: Header, rebuild: bool): Option<OpenError>
    requires 8 <= cs
  {
    var g := GeometryOf(cs, h);
    if g.l1Len > MAX_RAM_POINTER_TABLE_SIZE then Some(TooManyL1Entries)
    else if g.l1Offset + 8 * g.l1Len > |b| then Some(BadHeader(ReadingHeader))
    else if h.refcountTableClusters > 2 * g.refTableLen then Some(RefcountTableTooLarge)
    else if CeilDiv(g.l1Len, cs) + g.refTableLen > MAX_RAM_POINTER_TABLE_SIZE then Some(TooManyRefcounts)
    else if !rebuild && g.refTableOffset + 8 * g.refTableLen > |b| then Some(ReadingRefCounts)
    else if !PlainOk(cs, b, Level(Pointers, TableAt(b, g.l1Offset, g.l1Len, true), map[]))
    then Some(CompressedBlocksNotSupported)
    else if |b| > g.limit then Some(GettingRefcount)
    else None
  }

  /** Why a file is refused, in the order things are looked at. */
  ghost function Refusal(b: seq<byte>): Option<OpenError> {
    match DecodeHeader(b)
    case Err(e) => Some(BadHeader(e))
    case Ok(h) =>
      if CheckHeader(h, |b|).Some? then CheckHeader(h, |b|)
      else if !FirstCountInFile(b, h) then Some(BadHeader(ReadingHeader))
      else
        var cs := Shift(h.clusterBits);
        ShiftRange(h.clusterBits);
        if NeedsRebuild(b, h) && !RebuildPossible(b, cs, h) then Some(Rebuilding)
        else SizeRefusal(b, cs, h, NeedsRebuild(b, h))
  }

  /**
   * The tables of the file are sound. Where the counts are not to be trusted, everything else has to be in
   * order: rebuilding is safe, and the rebuilt table will reach every cluster in use.
   */
  ghost predicate Trusted(b: seq<byte>, cs: nat, h: Header, own: map<nat, Role>)
    requires 512 <= cs && cs % 8 == 0 && FirstCountInFile(b, h)
  {
    var g := GeometryOf(cs, h);
    if NeedsRebuild(b, h) then
      && Rebuildable(b, cs, h)
      && (RebuildPossible(b, cs, h) ==> Mendable(g, b, h))
    else
      InFile(g, b) ==> WellFormed(g, b, own)
  }

  ghost predicate Mendable(g: Geometry, b: seq<byte>, h: Header) {
    && GeometryOk(g) && g.clusterSize % 8 == 0 && Matches(g, h) && Healthy(b, g.clusterSize, h)
    && h.l1TableOffset + 8 * h.l1Size <= |b| && 8 * g.refTableLen < TableRoom(g.clusterSize, h)
    && (forall table: seq<nat> ::
          |table| == TableEntries(g.clusterSize, h.size) &&
          BlocksWereFree(References(b, g.clusterSize, h), g.clusterSize, table)
          ==> Covered(g, b, h, table))
  }

  ghost predicate Ready(b: seq<byte>, own: map<nat, Role>) {
    DecodeHeader(b).Ok? ==>
      var h := DecodeHeader(b).value;
      CheckHeader(h, |b|).None? && FirstCountInFile(b, h) ==>
        (ShiftRange(h.clusterBits); Trusted(b, Shift(h.clusterBits), h, own))
  }

  // Opening.

  /** The mapping of the file as given. */
  function GivenMap(g: Geometry, b: seq<byte>): Level
    requires g.l1Offset + 8 * g.l1Len <= |b|
  {
    Level(Pointers, TableAt(b, g.l1Offset, g.l1Len, true), map[])
  }

  lemma GeometryCovers(cs: nat, h: Header)
    requires 512 <= cs
    ensures CoverageOk(GeometryOf(cs, h)) && ReachesLimit(GeometryOf(cs, h))
  {
    hide CeilDiv, RefcountClusters;
  }

  lemma MendedRestored(g: Geometry, b: seq<byte>, h: Header, b': seq<byte>, table: seq<nat>)
    requires Mendable(g, b, h) && Rebuildable(b, g.clusterSize, h) && Rebuilt(b, g.clusterSize, h, b', table)
    ensures Restored(g, b, h, b', table) && Covered(g, b, h, table)
  {
    hide Healthy, References, Tally, BlocksWereFree, CountsRestored, MapReadable, TableAt, TableEntries, Elsewhere,
         Covered, TableRoom, Rebuildable, GeometryOk;
    MendedSizes(g, b, h, table);
    RebuiltFree(b, g.clusterSize, h, b', table);
    assert InFile(g, b');
  }

  lemma MendedSizes(g: Geometry, b: seq<byte>, h: Header, table: seq<nat>)
    requires Mendable(g, b, h) && Rebuildable(b, g.clusterSize, h) && |table| == TableEntries(g.clusterSize, h.size)
    ensures 512 <= g.clusterSize && h.refcountTableOffset % g.clusterSize == 0
    ensures 8 * |table| <= TableRoom(g.clusterSize, h) && g.clusterSize <= TableRoom(g.clusterSize, h)
    ensures 8 * g.refTableLen <= TableRoom(g.clusterSize, h) - 8
  {
    hide Healthy, References, Tally, TableEntries, Covered, BlocksWereFree;
    RebuildableCluster(b, g.clusterSize, h);
    MulMonotone(1, h.refcountTableClusters, g.clusterSize);
    TableEnd(h.refcountTableClusters, g.clusterSize, g.refTableLen);
  }

  /** After the rebuild the image is in order, shows the same disk, and opens if nothing but the counts was wrong. */
  lemma Mended(g: Geometry, h: Header, b: seq<byte>, b': seq<byte>, table: seq<nat>)
    requires Mendable(g, b, h) && Rebuildable(b, g.clusterSize, h) && CoverageOk(g) && ReachesLimit(g)
    requires Rebuilt(b, g.clusterSize, h, b', table)
    ensures InFile(g, b') && g.l1Offset + 8 * g.l1Len <= |b|
    ensures WellFormed(g, b', RestoredOwn(g, b, h, b', table))
    ensures Contents(g, b', Opened(g, b').l2) == Contents(g, b, GivenMap(g, b))
    ensures Readable(g, b') <==> |b| <= g.limit && PlainOk(g.clusterSize, b, GivenMap(g, b))
    ensures PlainOk(g.clusterSize, b', Opened(g, b').l2) <==> PlainOk(g.clusterSize, b, GivenMap(g, b))
  {
    hide Healthy, Rebuilt, References, WellFormed, Contents, PlainOk, Covered, Rebuildable, DiskL1, DecodePointers,
         CoverageOk, ReachesLimit, Readable, RestoredOwn, BlocksWereFree, Reaches;
    MendedRestored(g, b, h, b', table);
    CoveredReaches(g, b, h, b', table);
    RebuiltWellFormed(g, b, h, b', table);
    RestoredContents(g, b, h, b', table);
    RestoredReadable(g, b, h, b', table);
    RestoredPlain(g, b, h, b', table);
    assert GivenMap(g, b) == FileMap(b, h);
  }

  lemma GeometrySize(cs: nat, h: Header)
    requires 8 <= cs
    ensures GeometryOf(cs, h).clusterSize == cs
  {
  }

  lemma RestoredPlain(g: Geometry, b: seq<byte>, h: Header, b': seq<byte>, table: seq<nat>)
    requires Restored(g, b, h, b', table)
    ensures PlainOk(g.clusterSize, b', Opened(g, b').l2) <==> PlainOk(g.clusterSize, b, FileMap(b, h))
  {
    hide Restored, Plain, DiskL1, L1Of, Cluster;
    RestoredBasics(g, b, h, b', table);
    RestoredTops(g, b, h, b', table);
    L1Length(b, h);
    forall i | 0 <= i < |L1Of(b, h)| && L1Of(b, h)[i] != 0
      ensures L1Of(b, h)[i] + g.clusterSize <= |b| <= |b'|
      ensures Cluster(g.clusterSize, b', L1Of(b, h)[i]) == Cluster(g.clusterSize, b, L1Of(b, h)[i])
    {
      RestoredTable(g, b, h, b', table, i);
    }
    if L1Of(b, h) != [] && L1Of(b, h)[0] != 0 {
      RestoredTable(g, b, h, b', table, 0);
    }
    RestoredGrew(g, b, h, b', table);
    SamePlain(g.clusterSize, b, b', FileMap(b, h), Opened(g, b').l2);
  }

  lemma RestoredGrew(g: Geometry, b: seq<byte>, h: Header, b': seq<byte>, table: seq<nat>)
    requires Restored(g, b, h, b', table)
    ensures |b| <= |b'|
  {
    hide Healthy, References, Tally, BlocksWereFree, CountsRestored, MapReadable, TableAt, TableEntries, Elsewhere,
         Matches;
  }

  /** The image a file was opened as: `written` is the file after a rebuild, if there was one. */
  ghost predicate OpenedAs(b: seq<byte>, h: Header, written: seq<byte>, table: seq<nat>, q: QcowFile)
    reads q, q.raw, q.refcounts
  {
    && 9 <= h.clusterBits <= 21 && FirstCountInFile(b, h)
    && (ShiftRange(h.clusterBits); OpenedWith(b, Shift(h.clusterBits), h, written, table, q))
  }

  /**
   * `QcowFile::from`: reads and checks the header, rebuilds the counts if they are not to be trusted, and
   * opens the image. It is refused exactly for the reasons listed in `Refusal`, the first one that applies;
   * otherwise the image shows the disk that the L1 table of the file describes.
   */
  method From(b: seq<byte>, ghost own: map<nat, Role>)
    returns (r: Result<QcowFile, OpenError>, ghost written: seq<byte>, ghost table: seq<nat>)
    requires Ready(b, own)
    ensures r.Err? <==> Refusal(b).Some?
    ensures r.Err? ==> Refusal(b) == Some(r.error)
    ensures r.Ok? ==>
              && fresh(r.value) && fresh(r.value.raw) && fresh(r.value.refcounts)
              && DecodeHeader(b).Ok? && OpenedAs(b, DecodeHeader(b).value, written, table, r.value)
  {
    hide DecodeHeader, RebuildPossible, SizeRefusal, Trusted, OpenedWith, NeedsRebuild, FirstCountInFile,
         CheckHeader, Shift;
    written, table := b, [];
    var header := DecodeHeader(b);
    if header.Err? {
      return Err(BadHeader(header.error)), b, [];
    }
    var h := header.value;
    var problem := CheckHeader(h, |b|);
    if problem.Some? {
      return Err(problem.value), b, [];
    }
    if !FirstCountInFile(b, h) {
      return Err(BadHeader(ReadingHeader)), b, [];
    }
    CheckedBits(h, |b|);
    ShiftRange(h.clusterBits);
    r, written, table := FromTables(b, Shift(h.clusterBits), h, own);
  }

  lemma CheckedBits(h: Header, n: nat)
    requires CheckHeader(h, n).None?
    ensures 9 <= h.clusterBits <= 21
  {
  }

  /** The part of opening that comes after the header. */
  method FromTables(b: seq<byte>, cs: nat, h: Header, ghost own: map<nat, Role>)
    returns (r: Result<QcowFile, OpenError>, ghost written: seq<byte>, ghost table: seq<nat>)
    requires 512 <= cs && cs % 8 == 0 && FirstCountInFile(b, h) && Trusted(b, cs, h, own)
    ensures var refusal := if NeedsRebuild(b, h) && !RebuildPossible(b, cs, h) then Some(Rebuilding)
                           else SizeRefusal(b, cs, h, NeedsRebuild(b, h));
            (r.Err? <==> refusal.Some?) && (r.Err? ==> refusal == Some(r.error))
    ensures r.Ok? ==>
              && fresh(r.value) && fresh(r.value.raw) && fresh(r.value.refcounts)
              && OpenedWith(b, cs, h, written, table, r.value)
  {
    hide RebuildPossible, SizeRefusal, NeedsRebuild, FirstCountInFile, Rebuilt, Rebuildable, WellFormed, Mendable,
         JournalOk, RestoredOwn, GeometryOf, InFile, QcowFile.Valid, Contents, ZeroCounted, PlainOk, Prepared;
    written, table := b, [];
    ghost var roles := own;
    var bytes := b;
    GivenPrepared(b, cs, h, own);
    if NeedsRebuild(b, h) {
      EmptyJournal(cs, b);
      var raw := new QcowRawFile(cs, b, Started(b, Commit(0, 0, 0, {}), Commit(0, 0, 0, {}), map[]));
      var e, newTable := RebuildRefcounts(raw, h);
      if e.Some? {
        return Err(Rebuilding), b, [];
      }
      bytes, written, table := raw.bytes, raw.bytes, newTable;
      MendedPrepared(cs, h, b, bytes, table);
      roles := RestoredRoles(b, cs, h, bytes, table);
    }
    NotEmpty(b, cs, h, bytes, roles);
    r := OpenSized(b, cs, h, bytes, roles, NeedsRebuild(b, h));
  }

  lemma GivenPrepared(b: seq<byte>, cs: nat, h: Header, own: map<nat, Role>)
    requires 512 <= cs && cs % 8 == 0 && FirstCountInFile(b, h) && Trusted(b, cs, h, own)
    ensures !NeedsRebuild(b, h) ==> Prepared(b, cs, h, b, own, false)
  {
    hide GeometryOf, Mendable, Rebuildable, WellFormed, NeedsRebuild, FirstCountInFile, RebuildPossible;
  }

  lemma NotEmpty(b: seq<byte>, cs: nat, h: Header, bytes: seq<byte>, roles: map<nat, Role>)
    requires 512 <= cs && cs % 8 == 0 && FirstCountInFile(b, h)
    requires Prepared(b, cs, h, bytes, roles, NeedsRebuild(b, h))
    ensures 0 < |bytes|
  {
    hide GeometryOf, WellFormed, NeedsRebuild, Contents, PlainOk, WordAt;
  }

  lemma MendedPrepared(cs: nat, h: Header, b: seq<byte>, b': seq<byte>, table: seq<nat>)
    requires 512 <= cs && cs % 8 == 0 && Mendable(GeometryOf(cs, h), b, h) && Rebuildable(b, cs, h)
    requires Rebuilt(b, cs, h, b', table)
    ensures Prepared(b, cs, h, b', RestoredRoles(b, cs, h, b', table), true)
  {
    hide GeometryOf, Mendable, Rebuildable, Rebuilt, WellFormed, Contents, PlainOk, RestoredOwn, DiskL1, GivenMap;
    GeometryCovers(cs, h);
    GeometrySize(cs, h);
    Mended(GeometryOf(cs, h), h, b, b', table);
  }

  ghost function RestoredRoles(b: seq<byte>, cs: nat, h: Header, b': seq<byte>, table: seq<nat>): (own: map<nat, Role>)
    requires 512 <= cs && cs % 8 == 0 && Rebuilt(b, cs, h, b', table)
    ensures h.l1TableOffset + 8 * h.l1Size <= |b| && own == RestoredOwn(GeometryOf(cs, h), b, h, b', table)
  {
    ReadableL1(b, cs, h);
    RestoredOwn(GeometryOf(cs, h), b, h, b', table)
  }

  ghost predicate OpenedWith(b: seq<byte>, cs: nat, h: Header, written: seq<byte>, table: seq<nat>, q: QcowFile)
    requires 512 <= cs && cs % 8 == 0 && FirstCountInFile(b, h)
    reads q, q.raw, q.refcounts
  {
    && q.g == GeometryOf(cs, h) && q.g.l1Offset + 8 * q.g.l1Len <= |b|
    && q.Valid() && q.currentOffset == 0 && q.Disk() == Contents(q.g, b, GivenMap(q.g, b))
    && (if NeedsRebuild(b, h) then Rebuilt(b, cs, h, written, table) else written == b)
    && InFile(q.g, written) && |q.raw.bytes| == |written|
    && ZeroCounted(q.g, written, Opened(q.g, written).rc, |written|, q.availClusters)
  }

  /** The tables `bytes` holds now are in order, and stand for the same disk as those of `b`. */
  ghost predicate Prepared(b: seq<byte>, cs: nat, h: Header, bytes: seq<byte>, roles: map<nat, Role>, rebuilt: bool)
    requires 512 <= cs && cs % 8 == 0
  {
    var g := GeometryOf(cs, h);
    if rebuilt then
      && InFile(g, bytes) && g.l1Offset + 8 * g.l1Len <= |b| && WellFormed(g, bytes, roles)
      && Contents(g, bytes, Opened(g, bytes).l2) == Contents(g, b, GivenMap(g, b))
      && (Readable(g, bytes) <==> |b| <= g.limit && PlainOk(cs, b, GivenMap(g, b)))
      && (PlainOk(cs, bytes, Opened(g, bytes).l2) <==> PlainOk(cs, b, GivenMap(g, b)))
    else
      bytes == b && (InFile(g, b) ==> WellFormed(g, b, roles))
  }

  /** The checks of sizes, and reading the tables. */
  method OpenSized(b: seq<byte>, cs: nat, h: Header, bytes: seq<byte>, ghost roles: map<nat, Role>, ghost rebuilt: bool)
    returns (r: Result<QcowFile, OpenError>)
    requires 512 <= cs && cs % 8 == 0 && Prepared(b, cs, h, bytes, roles, rebuilt) && 0 < |bytes|
    ensures var refusal := SizeRefusal(b, cs, h, rebuilt);
            (r.Err? <==> refusal.Some?) && (r.Err? ==> refusal == Some(r.error))
    ensures r.Ok? ==>
              var q := r.value;
              && fresh(q) && fresh(q.raw) && fresh(q.refcounts)
              && q.g == GeometryOf(cs, h) && q.g.l1Offset + 8 * q.g.l1Len <= |b|
              && q.Valid() && q.currentOffset == 0 && q.Disk() == Contents(q.g, b, GivenMap(q.g, b))
              && InFile(q.g, bytes) && |q.raw.bytes| == |bytes|
              && ZeroCounted(q.g, bytes, Opened(q.g, bytes).rc, |bytes|, q.availClusters)
  {
    hide WellFormed, Contents, PlainOk, QcowFile.Valid, ZeroCounted, Continued, StartJournal, CeilDiv,
         RefcountClusters, Reach, L1Entries, DecodePointers;
    var g := GeometryOf(cs, h);
    if g.l1Len > MAX_RAM_POINTER_TABLE_SIZE {
      return Err(TooManyL1Entries);
    }
    if g.l1Offset + 8 * g.l1Len > |bytes| {
      return Err(BadHeader(ReadingHeader));
    }
    if h.refcountTableClusters > 2 * g.refTableLen {
      return Err(RefcountTableTooLarge);
    }
    if CeilDiv(g.l1Len, cs) + g.refTableLen > MAX_RAM_POINTER_TABLE_SIZE {
      return Err(TooManyRefcounts);
    }
    if g.refTableOffset + 8 * g.refTableLen > |bytes| {
      return Err(ReadingRefCounts);
    }
    var q := Open(g, bytes, roles);
    if q.Err? {
      return Err(if q.error == ENOTSUP then CompressedBlocksNotSupported else GettingRefcount);
    }
    return Ok(q.value);
  }

  // A new image.

  /** The largest size a new image can have: 34994654 clusters. */
  const LARGEST_NEW: nat := 34_994_654 * CLUSTER_SIZE

  /** What the file holds once the header was written to an empty file. */
  function NewBytes(version: nat, size: nat): seq<byte>
    requires 0 <= LastTouched(CLUSTER_SIZE, CreateForSize(version, size))
  {
    HeaderPut([], CLUSTER_SIZE, CreateForSize(version, size))
  }

  /** The clusters of header and tables. */
  function FirstClusters(size: nat): nat {
    1 + L1Clusters(size) + CreateForSize(3, size).refcountTableClusters
  }

  lemma NewLayout(version: nat, size: nat)
    ensures var h := CreateForSize(version, size);
            && h.l1TableOffset == CLUSTER_SIZE && CLUSTER_SIZE <= h.refcountTableOffset < U32
            && h.refcountTableOffset == CLUSTER_SIZE * (L1Clusters(size) + 1)
            && h.refcountTableClusters <= 0x1_0000 && h.l1Size < U32
            && h.refcountTableClusters == CreateForSize(3, size).refcountTableClusters
            && V3_BARE_HEADER_SIZE <= LastTouched(CLUSTER_SIZE, h)
  {
    assert NumClusters(size) < U32;
    CeilBound(NumClusters(size), 8192, 0x8_0000);
    CeilBound(NumL2Clusters(size), CLUSTER_SIZE, 8);
    CeilBound(MaxRefcountClusters(CLUSTER_SIZE, MetadataAndData(size)) % U32 * 8 % U32, CLUSTER_SIZE, 0x1_0000);
  }

  lemma FitsIf(h: Header)
    requires h.version < U32 && h.backingFileOffset == 0 && h.backingFileSize == 0 && h.clusterBits < U32
    requires h.size <= U64_MAX && h.cryptMethod == 0 && h.l1Size < U32 && h.l1TableOffset < U32
    requires h.refcountTableOffset < U32 && h.refcountTableClusters < U32
    requires h.nbSnapshots == 0 && h.snapshotsOffset == 0
    requires h.incompatibleFeatures == h.compatibleFeatures == h.autoclearFeatures == 0
    requires h.refcountOrder < U32 && h.headerSize < U32
    ensures Fits(h)
  {
    SpanOfEight();
    assert Span(4) == U32;
  }

  /** The header that was written is read back, whatever the size. */
  lemma NewHeader(version: nat, size: nat)
    requires version < U32 && size <= U64_MAX
    ensures 0 <= LastTouched(CLUSTER_SIZE, CreateForSize(version, size))
    ensures DecodeHeader(NewBytes(version, size)) == Ok(CreateForSize(version, size))
  {
    hide DecodeHeader, EncodeHeader, NumL2Clusters, L1Clusters, MetadataAndData, MaxRefcountClusters, CeilDiv, Fits,
         HeaderPut;
    var h := CreateForSize(version, size);
    NewLayout(version, size);
    FitsIf(h);
    HeaderFrame([], CLUSTER_SIZE, h);
    var b := NewBytes(version, size);
    HeaderRoundTrip(h, b[V3_BARE_HEADER_SIZE..]);
    assert b == EncodeHeader(h) + b[V3_BARE_HEADER_SIZE..];
  }

  lemma NewRefused(version: nat, size: nat, n: nat)
    requires version < U32 && size <= U64_MAX
    ensures var c := CheckHeader(CreateForSize(version, size), n);
            && (version != 2 && version != 3 ==> c == Some(UnsupportedVersion))
            && ((version == 2 || version == 3) && size > MAX_QCOW_FILE_SIZE ==> c == Some(FileTooBig))
  {
    hide L1Clusters, MetadataAndData, MaxRefcountClusters;
    CeilBound(NumClusters(size), 8192, 0x8_0000);
  }

  /** An image of a supported size: the header is accepted, and the file reaches a byte short of the first clusters. */
  lemma NewAccepted(version: nat, size: nat)
    requires (version == 2 || version == 3) && size <= MAX_QCOW_FILE_SIZE
    ensures 0 <= LastTouched(CLUSTER_SIZE, CreateForSize(version, size))
    ensures var h, b := CreateForSize(version, size), NewBytes(version, size);
            && 2 <= FirstClusters(size) <= 4 && |b| == FirstClusters(size) * CLUSTER_SIZE - 1
            && (forall p :: V3_BARE_HEADER_SIZE <= p < |b| ==> b[p] == 0)
            && CheckHeader(h, |b|) == None && FirstCountInFile(b, h) && NeedsRebuild(b, h)
            && (size <= FOUR_TIB ==> h.l1TableOffset + 8 * h.l1Size <= |b|)
  {
    hide NumL2Clusters, L1Clusters, MetadataAndData, MaxRefcountClusters, CeilDiv, HeaderPut;
    var h := CreateForSize(version, size);
    NewLayout(version, size);
    NoWrapAround(version, size);
    TableHoldsPointers(version, size);
    ShiftOfSixteen();
    HeaderFrame([], CLUSTER_SIZE, h);
    var b, lo := NewBytes(version, size), h.refcountTableOffset;
    assert b[lo..lo + 8] == Zeros(8);
    BigEndianOfZeros(8);
    LayoutApart(version, size);
  }

  // Its references: header and tables, in a row.

  lemma {:induction false} RowJoin(start: nat, cs: nat, m: nat, n: nat)
    ensures Row(start, cs, m) + Row(start + m * cs, cs, n) == Row(start, cs, m + n)
  {
    if n > 0 {
      RowJoin(start, cs, m, n - 1);
      assert start + m * cs + (n - 1) * cs == start + (m + n - 1) * cs;
    } else {
      assert Row(start + m * cs, cs, n) == [];
    }
  }

  lemma {:induction false} NoTables(b: seq<byte>, cs: nat, l1: seq<nat>)
    requires cs % 8 == 0 && forall i :: 0 <= i < |l1| ==> l1[i] == 0
    ensures MapRefs(b, cs, l1) == []
  {
    if l1 != [] {
      NoTables(b, cs, l1[..|l1| - 1]);
    }
  }

  lemma {:induction false} RowTally(cs: nat, n: nat, i: nat)
    requires 0 < cs
    ensures Tally(Row(0, cs, n), cs, i) == if i < n then 1 else 0
  {
    if n > 0 {
      RowTally(cs, n - 1, i);
      TallyOneMore(Row(0, cs, n - 1), (n - 1) * cs, cs, i);
      MultipleAligned(cs, n - 1);
    }
  }

  lemma {:induction false} RowFree(cs: nat, n: nat, m: nat)
    requires 0 < cs
    ensures FreeBelow(Row(0, cs, n), cs, m) == if m <= n then 0 else m - n
  {
    hide Row;
    if m > 0 {
      RowFree(cs, n, m - 1);
      RowTally(cs, n, m - 1);
    }
  }

  lemma {:induction false} RowBelow(cs: nat, n: nat, a: nat)
    requires 0 < cs && a in Row(0, cs, n)
    ensures a % cs == 0 && a / cs < n
  {
    MultipleAligned(cs, n - 1);
    if a != (n - 1) * cs {
      RowBelow(cs, n - 1, a);
    }
  }

  lemma NewReferences(version: nat, size: nat)
    requires (version == 2 || version == 3) && size <= MAX_QCOW_FILE_SIZE
    requires 0 <= LastTouched(CLUSTER_SIZE, CreateForSize(version, size))
    requires var h := CreateForSize(version, size); h.l1TableOffset + 8 * h.l1Size <= |NewBytes(version, size)|
    ensures var h, b := CreateForSize(version, size), NewBytes(version, size);
            && L1Of(b, h) == ZeroBlock(h.l1Size) && MappedRefs(b, CLUSTER_SIZE, h) == []
            && References(b, CLUSTER_SIZE, h) == Row(0, CLUSTER_SIZE, FirstClusters(size))
  {
    hide NumL2Clusters, L1Clusters, MetadataAndData, MaxRefcountClusters, CeilDiv, HeaderPut, DecodePointers,
         CheckHeader, NeedsRebuild, FirstCountInFile;
    var h, b := CreateForSize(version, size), NewBytes(version, size);
    NewAccepted(version, size);
    NewLayout(version, size);
    assert b[h.l1TableOffset..h.l1TableOffset + 8 * h.l1Size] == Zeros(8 * h.l1Size);
    PointersOfZeros(h.l1Size, true);
    NoTables(b, CLUSTER_SIZE, L1Of(b, h));
    L1RowIs(version, size);
    var n := L1Clusters(size);
    RowJoin(0, CLUSTER_SIZE, 1, n);
    RowJoin(0, CLUSTER_SIZE, 1 + n, h.refcountTableClusters);
    FirstRow(CLUSTER_SIZE);
  }

  lemma L1RowIs(version: nat, size: nat)
    ensures CeilDiv(CreateForSize(version, size).l1Size, CLUSTER_SIZE) == L1Clusters(size)
  {
  }

  lemma FirstRow(cs: nat)
    ensures Row(0, cs, 1) == [0]
  {
    assert Row(0, cs, 0) == [];
  }

  // Which sizes are supported.

  lemma NewClusters(size: nat)
    requires size <= MAX_QCOW_FILE_SIZE
    ensures 1 + L1Clusters(size) <= MaxClusters(CLUSTER_SIZE, size) <= 0x1000_8002
    ensures MaxClusters(CLUSTER_SIZE, size) <= 34_998_928 <==> size <= LARGEST_NEW
    ensures L1Clusters(size) <= 1
  {
    var data := CeilDiv(size, CLUSTER_SIZE);
    assert data <= 0x1000_0000;
    var l2 := CeilDiv(data, 8192);
    assert l2 <= 0x8000;
    assert data == 0 <==> l2 == 0;
    assert size <= LARGEST_NEW <==> data <= 34_994_654;
    CeilSteps(data);
  }

  lemma CeilSteps(data: nat)
    requires data <= 0x1000_0000
    ensures data + CeilDiv(data, 8192) <= 34_998_926 <==> data <= 34_994_654
  {
    CeilCovers(data, 8192);
  }

  lemma IndexSteps(m: nat)
    requires 1 <= m <= 0x1000_8002
    ensures var blocks := CeilDiv(m, 32768);
            var entries := CeilDiv(blocks, 8192);
            var more := CeilDiv(blocks + entries, 32768);
            && 1 <= blocks <= 8194 && 1 <= entries <= 2 && more == 1 && CeilDiv(more, 32768) == 1
            && (m + blocks + entries + 2 <= MAX_RAM_POINTER_TABLE_SIZE <==> m <= 34_998_928)
            && (m <= 34_998_928 ==> entries == 1)
  {
    CeilCovers(m, 32768);
    var blocks := CeilDiv(m, 32768);
    assert 1 <= blocks <= 8194;
  }

  /** Rebuilding the counts of a new image is possible exactly up to the largest size. */
  lemma NewSizes(size: nat)
    requires size <= MAX_QCOW_FILE_SIZE
    ensures MaxValidClusterIndex(CLUSTER_SIZE, size) <= MAX_RAM_POINTER_TABLE_SIZE <==> size <= LARGEST_NEW
    ensures 1 <= TableEntries(CLUSTER_SIZE, size) <= 2
    ensures (size <= LARGEST_NEW ==> TableEntries(CLUSTER_SIZE, size) == 1)
    ensures MaxValidClusterIndex(CLUSTER_SIZE, size) >= 4 + L1Clusters(size) + TableEntries(CLUSTER_SIZE, size)
  {
    hide CeilDiv, MaxClusters, L1Clusters;
    NewClusters(size);
    IndexSteps(MaxClusters(CLUSTER_SIZE, size));
  }

  lemma NewRebuildable(version: nat, size: nat)
    requires (version == 2 || version == 3) && size <= MAX_QCOW_FILE_SIZE
    requires 0 <= LastTouched(CLUSTER_SIZE, CreateForSize(version, size))
    ensures Rebuildable(NewBytes(version, size), CLUSTER_SIZE, CreateForSize(version, size))
  {
    hide NumL2Clusters, L1Clusters, MetadataAndData, MaxRefcountClusters, CeilDiv, HeaderPut, References,
         TableEntries, Tally;
    var h, b := CreateForSize(version, size), NewBytes(version, size);
    NewLayout(version, size);
    TableHoldsPointers(version, size);
    NewSizes(size);
    if h.l1TableOffset + 8 * h.l1Size <= |b| {
      NewReferences(version, size);
      forall i: nat
        ensures Tally(References(b, CLUSTER_SIZE, h), CLUSTER_SIZE, i) < COUNT_LIMIT
      {
        RowTally(CLUSTER_SIZE, FirstClusters(size), i);
      }
    }
  }

  lemma NewPossible(version: nat, size: nat)
    requires (version == 2 || version == 3) && size <= MAX_QCOW_FILE_SIZE
    requires 0 <= LastTouched(CLUSTER_SIZE, CreateForSize(version, size))
    ensures RebuildPossible(NewBytes(version, size), CLUSTER_SIZE, CreateForSize(version, size)) <==>
            size <= LARGEST_NEW
  {
    hide NumL2Clusters, L1Clusters, MetadataAndData, MaxRefcountClusters, CeilDiv, HeaderPut, References,
         TableEntries, L1Of, MaxValidClusterIndex, Row, FreeBelow, CheckHeader, NeedsRebuild, FirstCountInFile,
         AllBelow;
    NewSizes(size);
    if size <= LARGEST_NEW {
      var h, b, n := CreateForSize(version, size), NewBytes(version, size), MaxValidClusterIndex(CLUSTER_SIZE, size);
      NewAccepted(version, size);
      NewReferences(version, size);
      TableHoldsPointers(version, size);
      RowAllBelow(CLUSTER_SIZE, FirstClusters(size), n);
      RowFree(CLUSTER_SIZE, FirstClusters(size), n);
      EmptyReadable(b, CLUSTER_SIZE, h);
    }
  }

  lemma EmptyReadable(b: seq<byte>, cs: nat, h: Header)
    requires h.l1TableOffset + 8 * h.l1Size <= |b| && L1Of(b, h) == ZeroBlock(h.l1Size)
    ensures MapReadable(b, cs, h)
  {
  }

  lemma RowAllBelow(cs: nat, n: nat, m: nat)
    requires 0 < cs && n <= m
    ensures AllBelow(Row(0, cs, n), cs, m)
  {
    forall a | a in Row(0, cs, n)
      ensures a / cs < m
    {
      RowBelow(cs, n, a);
    }
  }

  // Nothing but its counts is missing.

  lemma NewHealthy(version: nat, size: nat)
    requires (version == 2 || version == 3) && size <= FOUR_TIB
    requires 0 <= LastTouched(CLUSTER_SIZE, CreateForSize(version, size))
    ensures Healthy(NewBytes(version, size), CLUSTER_SIZE, CreateForSize(version, size))
  {
    hide NumL2Clusters, L1Clusters, MetadataAndData, MaxRefcountClusters, CeilDiv, HeaderPut, References,
         TableEntries, L1Of, Row, CheckHeader, NeedsRebuild, FirstCountInFile, MappedRefs, Tally, IsFixed,
         MapReadable, NoLongerUsed, TailCluster;
    var h, b, cs, n := CreateForSize(version, size), NewBytes(version, size), CLUSTER_SIZE, FirstClusters(size);
    NewAccepted(version, size);
    NewReferences(version, size);
    NewLayout(version, size);
    EmptyReadable(b, cs, h);
    NewL1Row(version, size);
    forall a | a in References(b, cs, h)
      ensures a % cs == 0
    {
      RowBelow(cs, n, a);
    }
    forall i: nat
      ensures Tally(References(b, cs, h), cs, i) <= 1
    {
      RowTally(cs, n, i);
    }
    forall p | NoLongerUsed(cs, h, p)
      ensures ByteOf(b, p) == 0
    {
      BehindTable(cs, h, p);
    }
    forall a: nat | TailCluster(cs, |b|, a)
      ensures IsFixed(cs, h, a)
    {
      NewTail(version, size, a);
    }
  }

  lemma BehindTable(cs: nat, h: Header, p: nat)
    requires 8 <= cs && NoLongerUsed(cs, h, p)
    ensures h.refcountTableOffset <= p
  {
  }

  lemma NewL1Row(version: nat, size: nat)
    requires size <= FOUR_TIB
    ensures var h := CreateForSize(version, size); 8 * h.l1Size <= CeilDiv(h.l1Size, CLUSTER_SIZE) * CLUSTER_SIZE
  {
    LayoutApart(version, size);
    NoWrapAround(version, size);
    L1RowIs(version, size);
  }

  lemma NewTail(version: nat, size: nat, a: nat)
    requires size <= FOUR_TIB && TailCluster(CLUSTER_SIZE, FirstClusters(size) * CLUSTER_SIZE - 1, a)
    ensures IsFixed(CLUSTER_SIZE, CreateForSize(version, size), a)
  {
    hide NumL2Clusters, L1Clusters, MetadataAndData, MaxRefcountClusters, CeilDiv, Row;
    var h := CreateForSize(version, size);
    NewLayout(version, size);
    NoWrapAround(version, size);
    TableHoldsPointers(version, size);
    InRefTable(CLUSTER_SIZE, h, a, FirstClusters(size) * CLUSTER_SIZE - 2);
    FixedRow(CLUSTER_SIZE, h, a);
  }

  lemma NewGeometry(version: nat, size: nat)
    requires size <= MAX_QCOW_FILE_SIZE
    ensures GeometryOf(CLUSTER_SIZE, CreateForSize(version, size)) == OpenedGeometry(size)
  {
    hide MaxRefcountClusters;
    NoWrapAround(version, size);
  }

  lemma NewMatches(version: nat, size: nat)
    requires size <= LARGEST_NEW
    ensures var g, h := OpenedGeometry(size), CreateForSize(version, size);
            && 8 <= g.clusterSize && Matches(g, h) && 8 * g.refTableLen < TableRoom(g.clusterSize, h)
            && h.refcountTableClusters == 1 && GeometryOk(g)
  {
    hide NumL2Clusters, L1Clusters, CeilDiv, TableEntries;
    NoWrapAround(version, size);
    NewBlocks(version, size);
    NewSizes(size);
    LayoutUsable(size);
  }

  lemma NewBlocks(version: nat, size: nat)
    requires size <= LARGEST_NEW
    ensures 2 <= MaxRefcountClusters(CLUSTER_SIZE, MetadataAndData(size)) <= 1100
    ensures CreateForSize(version, size).refcountTableClusters == 1
  {
    hide NumL2Clusters, L1Clusters, NumClusters;
    NoWrapAround(version, size);
    assert NumClusters(size) <= 34_994_654 by {
      CeilBound(size, CLUSTER_SIZE, 34_994_654);
    }
    BlocksBound(MetadataAndData(size));
    CeilBound(MetadataAndData(size) * 2, CLUSTER_SIZE, 1099);
  }

  /** The one new block goes right behind the first clusters, where its count and theirs fit the block. */
  lemma NewCovered(version: nat, size: nat, table: seq<nat>)
    requires (version == 2 || version == 3) && size <= LARGEST_NEW
    requires 0 <= LastTouched(CLUSTER_SIZE, CreateForSize(version, size))
    requires var h, b := CreateForSize(version, size), NewBytes(version, size);
             && h.l1TableOffset + 8 * h.l1Size <= |b| && |table| == 1
             && BlocksWereFree(References(b, CLUSTER_SIZE, h), CLUSTER_SIZE, table)
    ensures table == [FirstClusters(size) * CLUSTER_SIZE]
    ensures Covered(OpenedGeometry(size), NewBytes(version, size), CreateForSize(version, size), table)
  {
    hide NumL2Clusters, L1Clusters, MetadataAndData, MaxRefcountClusters, CeilDiv, HeaderPut, References, L1Of,
         Row, CheckHeader, NeedsRebuild, FirstCountInFile, MappedRefs, Tally, FreeBelow, AllBelow;
    var h, b, cs, n := CreateForSize(version, size), NewBytes(version, size), CLUSTER_SIZE, FirstClusters(size);
    NewAccepted(version, size);
    NewReferences(version, size);
    RowTally(cs, n, table[0] / cs);
    RowFree(cs, n, table[0] / cs);
    assert table[0] == n * cs;
    RowAllBelow(cs, n, 32768);
    OneBelow(table[0], cs, 32768);
    BelowJoin(References(b, cs, h), table, cs, 32768);
  }

  lemma SizeKept(version: nat, size: nat)
    ensures var h := CreateForSize(version, size);
            h.version == version && h.size == size && h.clusterBits == DEFAULT_CLUSTER_BITS
  {
  }

  lemma NewMendable(version: nat, size: nat)
    requires (version == 2 || version == 3) && size <= LARGEST_NEW
    requires 0 <= LastTouched(CLUSTER_SIZE, CreateForSize(version, size))
    ensures Mendable(OpenedGeometry(size), NewBytes(version, size), CreateForSize(version, size))
  {
    hide NumL2Clusters, L1Clusters, MetadataAndData, MaxRefcountClusters, CeilDiv, HeaderPut, References, L1Of,
         CheckHeader, NeedsRebuild, FirstCountInFile, Healthy, Matches, GeometryOk, BlocksWereFree, Covered,
         TableEntries, Reach, CreateForSize, NewBytes, TableRoom;
    NewMatches(version, size);
    NewAccepted(version, size);
    NewHealthy(version, size);
    NewSizes(size);
    SizeKept(version, size);
    var g, h, b := OpenedGeometry(size), CreateForSize(version, size), NewBytes(version, size);
    forall table: seq<nat> | |table| == TableEntries(g.clusterSize, h.size)
                             && BlocksWereFree(References(b, g.clusterSize, h), g.clusterSize, table)
      ensures Covered(g, b, h, table)
    {
      NewCovered(version, size, table);
    }
  }

  // Creating the image.

  /** The header just written is all there is: the counts are rebuilt on opening. */
  lemma NewReady(version: nat, size: nat)
    requires version < U32 && size <= U64_MAX
    ensures 0 <= LastTouched(CLUSTER_SIZE, CreateForSize(version, size))
    ensures Ready(NewBytes(version, size), map[])
  {
    hide CreateForSize, NewBytes, DecodeHeader, CheckHeader, NeedsRebuild, FirstCountInFile, Rebuildable, Mendable,
         RebuildPossible, GeometryOf, Shift, OpenedGeometry, WellFormed;
    NewHeader(version, size);
    var h, b := CreateForSize(version, size), NewBytes(version, size);
    CheckedSize(h, |b|);
    SizeKept(version, size);
    if CheckHeader(h, |b|).None? {
      NewAccepted(version, size);
      ShiftOfSixteen();
      NewRebuildable(version, size);
      NewPossible(version, size);
      NewGeometry(version, size);
      if size <= LARGEST_NEW {
        NewMendable(version, size);
      }
    }
  }

  lemma CheckedSize(h: Header, n: nat)
    ensures CheckHeader(h, n).None? ==> (h.version == 2 || h.version == 3) && h.size <= MAX_QCOW_FILE_SIZE
    ensures h.version != 2 && h.version != 3 <==> CheckHeader(h, n) == Some(UnsupportedVersion)
  {
  }

  /** Why a new image is refused. */
  function NewRefusal(version: nat, size: nat): Option<OpenError> {
    if version != 2 && version != 3 then Some(UnsupportedVersion)
    else if size > MAX_QCOW_FILE_SIZE then Some(FileTooBig)
    else if size > LARGEST_NEW then Some(Rebuilding)
    else None
  }

  lemma NewRefusalIs(version: nat, size: nat)
    requires version < U32 && size <= U64_MAX
    ensures 0 <= LastTouched(CLUSTER_SIZE, CreateForSize(version, size))
    ensures Refusal(NewBytes(version, size)) == NewRefusal(version, size)
  {
    hide CreateForSize, NewBytes, DecodeHeader, CheckHeader, NeedsRebuild, FirstCountInFile, RebuildPossible,
         SizeRefusal, Shift;
    NewHeader(version, size);
    var h, b := CreateForSize(version, size), NewBytes(version, size);
    NewRefused(version, size, |b|);
    SizeKept(version, size);
    ShiftOfSixteen();
    if (version == 2 || version == 3) && size <= MAX_QCOW_FILE_SIZE {
      NewAccepted(version, size);
      NewPossible(version, size);
      if size <= LARGEST_NEW {
        NewSized(version, size);
      }
    }
  }

  lemma NewSized(version: nat, size: nat)
    requires (version == 2 || version == 3) && size <= LARGEST_NEW
    requires 0 <= LastTouched(CLUSTER_SIZE, CreateForSize(version, size))
    ensures SizeRefusal(NewBytes(version, size), CLUSTER_SIZE, CreateForSize(version, size), true) == None
  {
    hide NumL2Clusters, L1Clusters, CeilDiv, HeaderPut, NewBytes, TableAt, GeometryOf, Reach, CheckHeader, NeedsRebuild,
         FirstCountInFile, MaxRefcountClusters, MetadataAndData;
    var h, b := CreateForSize(version, size), NewBytes(version, size);
    NewAccepted(version, size);
    NewReferences(version, size);
    NewGeometry(version, size);
    NewBlocks(version, size);
    NoWrapAround(version, size);
    L1RowIs(version, size);
    var g := OpenedGeometry(size);
    NewMap(version, size);
    NoTablesPlain(CLUSTER_SIZE, b, GivenMap(g, b));
  }

  lemma NoTablesPlain(cs: nat, b: seq<byte>, lv: Level)
    requires forall i :: 0 <= i < |lv.top| ==> lv.top[i] == 0
    ensures PlainOk(cs, b, lv)
  {
  }

  /** No virtual cluster is mapped yet. */
  lemma NewMap(version: nat, size: nat)
    requires (version == 2 || version == 3) && size <= LARGEST_NEW
    requires 0 <= LastTouched(CLUSTER_SIZE, CreateForSize(version, size))
    ensures var g, b := OpenedGeometry(size), NewBytes(version, size);
            && g.l1Offset + 8 * g.l1Len <= |b|
            && forall i :: 0 <= i < |GivenMap(g, b).top| ==> GivenMap(g, b).top[i] == 0
  {
    hide NumL2Clusters, L1Clusters, CeilDiv, HeaderPut, NewBytes, DecodePointers, CheckHeader, NeedsRebuild,
         FirstCountInFile, MaxRefcountClusters, MetadataAndData;
    NewAccepted(version, size);
    NewReferences(version, size);
    NoWrapAround(version, size);
    var g, h, b := OpenedGeometry(size), CreateForSize(version, size), NewBytes(version, size);
    assert GivenMap(g, b).top == L1Of(b, h);
  }

  lemma UnmappedDisk(g: Geometry, b: seq<byte>, lv: Level)
    requires 8 <= g.clusterSize && lv.kind.Pointers? && lv.cache == map[]
    requires forall i :: 0 <= i < |lv.top| ==> lv.top[i] == 0
    ensures Contents(g, b, lv) == Zeros(g.size)
  {
    forall v: nat | v < g.size
      ensures ByteAt(g, b, lv, v) == 0
    {
    }
  }

  /** After the rebuild the file ends behind the one refcount block. */
  lemma NewWritten(version: nat, size: nat, written: seq<byte>, table: seq<nat>)
    requires (version == 2 || version == 3) && size <= LARGEST_NEW
    requires 0 <= LastTouched(CLUSTER_SIZE, CreateForSize(version, size))
    requires Rebuilt(NewBytes(version, size), CLUSTER_SIZE, CreateForSize(version, size), written, table)
    ensures 2 <= FirstClusters(size) <= 4 && |written| == (FirstClusters(size) + 1) * CLUSTER_SIZE
  {
    hide NumL2Clusters, L1Clusters, CeilDiv, HeaderPut, NewBytes, CheckHeader, NeedsRebuild, FirstCountInFile,
         MaxRefcountClusters, MetadataAndData, BlocksWereFree, CountsRestored, MapReadable, TableAt, Elsewhere,
         TableEntries, Covered, References;
    NewAccepted(version, size);
    NewLayout(version, size);
    NewSizes(size);
    NewCovered(version, size, table);
    assert table[0] + CLUSTER_SIZE <= |written|;
  }

  lemma SmallIndex(g: Geometry, a: nat)
    requires g.clusterSize == CLUSTER_SIZE && a < 32768 * CLUSTER_SIZE
    ensures RefIndex(g, a).0 == 0
  {
  }

  lemma NewLimit(size: nat)
    requires size <= LARGEST_NEW
    ensures OpenedGeometry(size).limit >= 32768 * CLUSTER_SIZE
  {
    hide NumL2Clusters, L1Clusters, MaxRefcountClusters, MetadataAndData, CreateForSize;
    NewBlocks(3, size);
    var blocks := MaxRefcountClusters(CLUSTER_SIZE, MetadataAndData(size));
    assert blocks * 32768 * CLUSTER_SIZE >= 2 * 32768 * CLUSTER_SIZE;
  }

  /** There is room for a new block, and its count goes to the block of the first clusters. */
  lemma NewEasy(g: Geometry, s: Image, n: nat)
    requires g.clusterSize == CLUSTER_SIZE && g.limit >= 32768 * CLUSTER_SIZE && n <= 4
    requires |s.bytes| == (n + 1) * CLUSTER_SIZE && forall a :: a in s.avail ==> a < |s.bytes|
    ensures EasyCount(g, s, 0)
  {
    SmallIndex(g, 0);
    var x := NextCluster(g, s);
    assert s.avail != [] ==> x in s.avail;
    MultipleAligned(CLUSTER_SIZE, n + 1);
    assert x < 32768 * CLUSTER_SIZE;
    SmallIndex(g, x);
    if s.avail == [] {
      NoFreeClusters(g, s);
    }
  }

  lemma AvailBelow(g: Geometry, b: seq<byte>, rc: Level, n: nat, avail: seq<nat>)
    requires 2 <= g.clusterSize && ZeroCounted(g, b, rc, n, avail)
    ensures forall a :: a in avail ==> a < n
  {
    hide Count;
  }

  /** What `New` starts from. */
  lemma NewOpened(version: nat, size: nat, written: seq<byte>, table: seq<nat>, q: QcowFile)
    requires (version == 2 || version == 3) && size <= LARGEST_NEW
    requires 0 <= LastTouched(CLUSTER_SIZE, CreateForSize(version, size))
    requires OpenedAs(NewBytes(version, size), CreateForSize(version, size), written, table, q)
    ensures q.Valid() && q.g == OpenedGeometry(size) && q.currentOffset == 0 && q.Disk() == Zeros(size)
    ensures EasyCount(q.g, q.Snap(), 0)
  {
    hide CreateForSize, NewBytes, CheckHeader, NeedsRebuild, FirstCountInFile, GeometryOf, Shift, ZeroCounted,
         Contents, GivenMap, Rebuilt, QcowFile.Valid, QcowFile.Disk, EasyCount, QcowFile.Snap, TableAt;
    NewAccepted(version, size);
    SizeKept(version, size);
    ShiftOfSixteen();
    NewGeometry(version, size);
    NewWritten(version, size, written, table);
    NewMap(version, size);
    var g, b := OpenedGeometry(size), NewBytes(version, size);
    GivenPlain(g, b);
    UnmappedDisk(g, b, GivenMap(g, b));
    NewLimit(size);
    AvailBelow(g, written, Opened(g, written).rc, |written|, q.availClusters);
    SnapIs(q);
    NewEasy(g, q.Snap(), FirstClusters(size));
  }

  lemma GivenPlain(g: Geometry, b: seq<byte>)
    requires g.l1Offset + 8 * g.l1Len <= |b|
    ensures GivenMap(g, b).kind.Pointers? && GivenMap(g, b).cache == map[]
  {
  }

  lemma SnapIs(q: QcowFile)
    ensures q.Snap().bytes == q.raw.bytes && q.Snap().avail == q.availClusters
    ensures q.Snap().rc.cache == q.refcounts.refblockCache
  {
  }

  /** The first clusters are those of the header and the tables. */
  lemma FirstReserved(version: nat, size: nat, a: nat)
    requires size <= LARGEST_NEW && a % CLUSTER_SIZE == 0 && a < FirstClusters(size) * CLUSTER_SIZE
    ensures Reserved(OpenedGeometry(size), a)
  {
    hide MaxRefcountClusters, MetadataAndData;
    NoWrapAround(version, size);
    NewBlocks(3, size);
    var i := a / CLUSTER_SIZE;
    assert a == CLUSTER_SIZE * i;
  }

  lemma ReservedOwned(g: Geometry, s: Image, k: Ledger, a: nat)
    requires Inv(g, s, k) && a % g.clusterSize == 0 && Reserved(g, a)
    ensures a in k.own && k.own[a].Fixed?
  {
    hide ShapeOk, LinkedOk, CountedOk, FrozenOk;
  }

  lemma CountedStill(g: Geometry, s: Image, k: Ledger, s': Image, k': Ledger, a: nat, added: set<nat>)
    requires 8 <= g.clusterSize && CountedAndQueued(g, s, k, s', k', a, 1, added) && k.pending == {}
    ensures k'.pending == {} && Contents(g, s'.bytes, s'.l2) == Contents(g, s.bytes, s.l2)
  {
    hide Inv, SameAreas, CountsAfter, SameUses, Contents;
  }

  /** Sets the count of one of the first clusters. */
  method CountFirst(q: QcowFile, ghost version: nat, ghost size: nat, a: nat)
    requires q.Valid() && q.g == OpenedGeometry(size) && size <= LARGEST_NEW
    requires a % CLUSTER_SIZE == 0 && a < FirstClusters(size) * CLUSTER_SIZE && FirstClusters(size) <= 4
    requires (a == 0 && EasyCount(q.g, q.Snap(), 0)) || IsDirty(q.refcounts.refblockCache, 0)
    modifies q`availClusters, q`unrefClusters, q`ledger, q.raw, q.refcounts
    ensures q.Valid() && q.Disk() == old(q.Disk()) && IsDirty(q.refcounts.refblockCache, 0)
  {
    hide OpenedGeometry, Inv, CommittedOk, JournalOk, CoverageOk, Contents, CountedAndQueued, EasyCount, IsDirty,
         FirstClusters, RefIndex, Continued;
    ghost var s, k := q.Snap(), q.ledger;
    SizeOf(size);
    SmallIndex(q.g, a);
    FirstReserved(version, size, a);
    q.SoundBasics();
    SnapIs(q);
    ReservedOwned(q.g, s, k, a);
    DirtyIsEasy(q.g, s, a);
    var counted, added := q.SetRefcountAndQueue(a, 1);
    CountedStill(q.g, s, k, q.Snap(), q.ledger, a, added);
  }

  lemma SizeOf(size: nat)
    ensures OpenedGeometry(size).clusterSize == CLUSTER_SIZE
  {
  }

  lemma DirtyIsEasy(g: Geometry, s: Image, a: nat)
    requires 2 <= g.clusterSize
    ensures IsDirty(s.rc.cache, RefIndex(g, a).0) ==> EasyCount(g, s, a)
  {
  }

  /**
   * `QcowFile::new`: writes a header to an empty file, opens it, which builds the counts, and sets the
   * counts of the first clusters once more. It succeeds exactly for the sizes up to `LARGEST_NEW`, and the
   * image is then in order and reads as zero everywhere.
   */
  method New(version: nat, size: nat) returns (r: Result<QcowFile, OpenError>)
    requires version < U32 && size <= U64_MAX
    ensures r.Err? <==> NewRefusal(version, size).Some?
    ensures r.Err? ==> NewRefusal(version, size) == Some(r.error)
    ensures r.Ok? ==>
              var q := r.value;
              && fresh(q) && fresh(q.raw) && fresh(q.refcounts)
              && q.Valid() && q.g == OpenedGeometry(size) && q.currentOffset == 0 && q.Disk() == Zeros(size)
  {
    hide CreateForSize, NewBytes, DecodeHeader, OpenedAs, OpenedGeometry, FirstClusters, EasyCount, IsDirty, Refusal,
         Ready, QcowFile.Valid, QcowFile.Disk, QcowFile.Snap, JournalOk, HeaderPut;
    NewReady(version, size);
    NewRefusalIs(version, size);
    NewHeader(version, size);
    var h := CreateForSize(version, size);
    EmptyJournal(CLUSTER_SIZE, []);
    var raw := new QcowRawFile(CLUSTER_SIZE, [], Started([], Commit(0, 0, 0, {}), Commit(0, 0, 0, {}), map[]));
    WriteHeader(raw, h);
    NewBytesAre(version, size);
    ghost var written, table;
    r, written, table := From(raw.bytes, map[]);
    if r.Err? {
      return;
    }
    var q := r.value;
    NewOpened(version, size, written, table, q);
    NewEnd(version, size);
    var endClusterAddr := h.refcountTableOffset + h.refcountTableClusters * CLUSTER_SIZE;
    var clusterAddr := 0;
    while clusterAddr < endClusterAddr
      invariant q.Valid() && q.Disk() == Zeros(size) && q.currentOffset == 0 && clusterAddr % CLUSTER_SIZE == 0
      invariant if clusterAddr == 0 then EasyCount(q.g, q.Snap(), 0) else IsDirty(q.refcounts.refblockCache, 0)
      decreases endClusterAddr - clusterAddr
    {
      CountFirst(q, version, size, clusterAddr);
      clusterAddr := clusterAddr + CLUSTER_SIZE;
    }
    return Ok(q);
  }

  lemma NewBytesAre(version: nat, size: nat)
    requires 0 <= LastTouched(CLUSTER_SIZE, CreateForSize(version, size))
    ensures NewBytes(version, size) == HeaderPut([], CLUSTER_SIZE, CreateForSize(version, size))
  {
  }

  lemma NewEnd(version: nat, size: nat)
    requires (version == 2 || version == 3) && size <= LARGEST_NEW
    ensures var h := CreateForSize(version, size);
            h.refcountTableOffset + h.refcountTableClusters * CLUSTER_SIZE == FirstClusters(size) * CLUSTER_SIZE
    ensures FirstClusters(size) <= 4 && OpenedGeometry(size).clusterSize == CLUSTER_SIZE
  {
    hide NumL2Clusters, L1Clusters, MetadataAndData, MaxRefcountClusters, CeilDiv;
    NewLayout(version, size);
    NoWrapAround(version, size);
    NewBlocks(version, size);
  }

  /**
   * `convert_reader`, from one qcow2 image to another: a new image of the same size, and a copy of all
   * that is not a hole. The copy holds the same bytes. It is refused for a source larger than a new image
   * can be; otherwise the only failure is to run out of clusters.
   */
  method ConvertReader(src: QcowFile) returns (r: Result<QcowFile, OpenError>)
    requires src.Valid() && src.g.size <= U64_MAX
    modifies src`l2Cache, src`currentOffset, src.raw
    ensures src.Valid() && src.Disk() == old(src.Disk())
    ensures src.g.size > LARGEST_NEW <==> NewRefusal(3, src.g.size).Some?
    ensures src.g.size > LARGEST_NEW ==> r.Err? && Some(r.error) == NewRefusal(3, src.g.size)
    ensures src.g.size <= LARGEST_NEW && r.Err? ==> r.error == WritingData
    ensures r.Ok? ==> r.value.Valid() && r.value.Disk() == src.Disk()
  {
    hide QcowFile.Valid, QcowFile.Disk, OpenedGeometry;
    var end := src.Seek(End(0));
    var start := src.Seek(Start(0));
    var dst := New(3, src.g.size);
    if dst.Err? {
      return dst;
    }
    SizeOfNew(src.g.size);
    var copied := ConvertReaderWriter(src, dst.value);
    if copied.Err? {
      return Err(WritingData);
    }
    return dst;
  }

  lemma SizeOfNew(size: nat)
    ensures OpenedGeometry(size).size == size
  {
  }
}
