/** Finding data and holes of a virtual disk, and copying one image into another. */
module QcowConversions {
  import opened Arithmetic
  import opened HostBytes
  import opened Wrappers
  import opened CachedTables
  import opened Journals
  import opened QcowImage
  import opened QcowSteps
  import opened QcowDisk
  import opened QcowCounting
  import opened QcowMapping
  import opened QcowRawFiles
  import opened QcowFiles

  const CHUNK_SIZE: nat := 65536

  /** The virtual cluster of `v` has a data cluster. */
  predicate IsAllocated(g: Geometry, b: seq<byte>, l2: Level, v: nat)
    requires 8 <= g.clusterSize
  {
    MapEntry(g, b, l2, VirtualCluster(g, v)) != 0
  }

  /** Nothing in `[lo..hi)` is in the wanted state. */
  ghost predicate NoneIn(g: Geometry, b: seq<byte>, l2: Level, lo: nat, hi: nat, wanted: bool)
    requires 8 <= g.clusterSize
  {
    forall v: nat :: lo <= v < hi ==> IsAllocated(g, b, l2, v) != wanted
  }

  /** Whether the cluster at `address` is allocated; only the caches change. */
  method ClusterAllocated(q: QcowFile, address: nat) returns (r: IoResult<bool>)
    requires q.Valid()
    modifies q`l2Cache, q.raw
    ensures r.Err? <==> address >= q.g.size
    ensures r.Err? ==> r.error == EINVAL
    ensures q.Valid() && Quiet(q.g, old(q.Snap()), q.Snap())
    ensures r.Ok? ==> r.value == IsAllocated(q.g, old(q.raw.bytes), old(q.Snap()).l2, address)
  {
    hide QcowFile.Wired, QcowFile.Committed, Inv, CommittedOk, JournalOk, CoverageOk, SameAreas, CachedOk, Contents,
         SameBlocks, LevelOk, MapEntry, MapIndex, VirtualCluster, Quiet;
    q.SoundBasics();
    ghost var g, s0 := q.g, q.Snap();
    InvShape(g, s0, q.ledger);
    QuietSelf(g, s0, q.ledger);
    if address >= q.g.size {
      return Err(EINVAL);
    }
    IndexInRange(g, address);
    var (l1Index, l2Index) := MapIndex(q.g, VirtualCluster(q.g, address));
    if q.l1Table.vec[l1Index] == 0 {
      // Without an L2 table there is no entry.
      NoTable(g, s0, q.ledger, l1Index, l2Index);
      EntryOf(g, s0, VirtualCluster(g, address));
      return Ok(false);
    }
    if l1Index !in q.l2Cache {
      var _ := q.LoadL2Table(l1Index);
    }
    L2Role(g, q.Snap(), q.ledger, l1Index);
    EntryCached(g, q.Snap(), VirtualCluster(g, address));
    QuietFacts(g, s0, q.Snap(), VirtualCluster(g, address), 0);
    return Ok(q.l2Cache[l1Index].vec[l2Index] != 0);
  }

  lemma QuietAllocated(g: Geometry, s: Image, s': Image, v: nat)
    requires 8 <= g.clusterSize && Quiet(g, s, s')
    ensures IsAllocated(g, s'.bytes, s'.l2, v) == IsAllocated(g, s.bytes, s.l2, v)
  {
    QuietFacts(g, s, s', VirtualCluster(g, v), 0);
  }

  lemma RowOf(cs: nat, v: nat)
    requires 0 < cs
    ensures 0 <= v / cs && cs * (v / cs) <= v < (v / cs + 1) * cs == cs * (v / cs) + cs
  {
    var c := v / cs;
    assert v == cs * c + v % cs;
    assert (c + 1) * cs == cs * c + cs;
  }

  /** A cluster is allocated as a whole. */
  lemma RestOfCluster(g: Geometry, b: seq<byte>, l2: Level, v: nat, wanted: bool)
    requires 8 <= g.clusterSize && IsAllocated(g, b, l2, v) != wanted
    ensures NoneIn(g, b, l2, v, (v / g.clusterSize + 1) * g.clusterSize, wanted)
    ensures v < (v / g.clusterSize + 1) * g.clusterSize
    ensures (v / g.clusterSize + 1) * g.clusterSize % g.clusterSize == 0
  {
    hide MapEntry;
    var cs, c := g.clusterSize, v / g.clusterSize;
    MultipleAligned(cs, c + 1);
    RowOf(cs, v);
    forall u: nat | v <= u < (c + 1) * cs
      ensures IsAllocated(g, b, l2, u) != wanted
    {
      DivModUnique(u, cs, c, u - cs * c);
    }
  }

  /** The least address from `address` on whose allocation state is the wanted one. */
  method FindAllocatedCluster(q: QcowFile, address: nat, wanted: bool) returns (r: IoResult<Option<nat>>)
    requires q.Valid()
    modifies q`l2Cache, q.raw
    ensures q.Valid() && Quiet(q.g, old(q.Snap()), q.Snap()) && r.Ok?
    ensures r.value.Some? ==>
              && address <= r.value.value < q.g.size
              && IsAllocated(q.g, old(q.raw.bytes), old(q.Snap()).l2, r.value.value) == wanted
              && NoneIn(q.g, old(q.raw.bytes), old(q.Snap()).l2, address, r.value.value, wanted)
    ensures r.value.None? ==> NoneIn(q.g, old(q.raw.bytes), old(q.Snap()).l2, address, q.g.size, wanted)
  {
    hide QcowFile.Wired, QcowFile.Committed, Inv, Quiet, Contents, IsAllocated;
    q.SoundBasics();
    ghost var g, s0 := q.g, q.Snap();
    QuietSelf(g, s0, q.ledger);
    var size := q.g.size;
    if address >= size {
      return Ok(None);
    }
    // An address that is already in the wanted state is the answer.
    var here := ClusterAllocated(q, address);
    if here.value == wanted {
      return Ok(Some(address));
    }
    // The rest of this cluster is in the same state.
    var clusterAddr := (address / q.g.clusterSize + 1) * q.g.clusterSize;
    RestOfCluster(g, s0.bytes, s0.l2, address, wanted);
    while clusterAddr < size
      invariant q.Valid() && Quiet(g, s0, q.Snap()) && address < clusterAddr
      invariant clusterAddr % g.clusterSize == 0
      invariant NoneIn(g, s0.bytes, s0.l2, address, clusterAddr, wanted)
    {
      ghost var s1 := q.Snap();
      var state := ClusterAllocated(q, clusterAddr);
      QuietAllocated(g, s0, s1, clusterAddr);
      QuietTrans(g, s0, s1, q.Snap());
      if state.value == wanted {
        return Ok(Some(clusterAddr));
      }
      NextBoundary(g, s0.bytes, s0.l2, address, clusterAddr, wanted);
      clusterAddr := clusterAddr + q.g.clusterSize;
    }
    return Ok(None);
  }

  lemma NextBoundary(g: Geometry, b: seq<byte>, l2: Level, lo: nat, v: nat, wanted: bool)
    requires 8 <= g.clusterSize && v % g.clusterSize == 0 && IsAllocated(g, b, l2, v) != wanted
    requires NoneIn(g, b, l2, lo, v, wanted)
    ensures NoneIn(g, b, l2, lo, v + g.clusterSize, wanted) && (v + g.clusterSize) % g.clusterSize == 0
  {
    hide IsAllocated;
    RestOfCluster(g, b, l2, v, wanted);
    NextAligned(g.clusterSize, v);
    BoundaryAfter(g.clusterSize, v);
  }

  lemma BoundaryAfter(cs: nat, v: nat)
    requires 0 < cs && v % cs == 0
    ensures (v / cs + 1) * cs == v + cs
  {
    var c := v / cs;
    assert v == cs * c;
    assert (c + 1) * cs == cs * c + cs;
  }

  /** `SeekHole::seek_hole`: moves to the first hole from `offset` on; the end of the disk is one. */
  method SeekHole(q: QcowFile, offset: nat) returns (r: IoResult<Option<nat>>)
    requires q.Valid() && q.g.size <= U64_MAX
    modifies q`l2Cache, q`currentOffset, q.raw
    ensures q.Valid() && Quiet(q.g, old(q.Snap()), q.Snap()) && r.Ok?
    ensures r.value.None? <==> offset >= q.g.size
    ensures r.value.Some? ==>
              var hole := r.value.value;
              && offset <= hole <= q.g.size && q.currentOffset == hole
              && NoneIn(q.g, old(q.raw.bytes), old(q.Snap()).l2, offset, hole, false)
              && (hole < q.g.size ==> !IsAllocated(q.g, old(q.raw.bytes), old(q.Snap()).l2, hole))
  {
    hide QcowFile.Wired, QcowFile.Committed, Inv, Quiet, Contents, IsAllocated;
    q.SoundBasics();
    var found := FindAllocatedCluster(q, offset, false);
    if found.value.None? {
      if offset < q.g.size {
        var end := q.Seek(End(0));
        return Ok(Some(end.value));
      }
      return Ok(None);
    }
    var _ := q.Seek(Start(found.value.value));
    return found;
  }

  /** `SeekHole::seek_data`: moves to the first data from `offset` on. */
  method SeekData(q: QcowFile, offset: nat) returns (r: IoResult<Option<nat>>)
    requires q.Valid()
    modifies q`l2Cache, q`currentOffset, q.raw
    ensures q.Valid() && Quiet(q.g, old(q.Snap()), q.Snap()) && r.Ok?
    ensures r.value.None? ==> NoneIn(q.g, old(q.raw.bytes), old(q.Snap()).l2, offset, q.g.size, true)
    ensures r.value.Some? ==>
              var data := r.value.value;
              && offset <= data < q.g.size && q.currentOffset == data
              && NoneIn(q.g, old(q.raw.bytes), old(q.Snap()).l2, offset, data, true)
              && IsAllocated(q.g, old(q.raw.bytes), old(q.Snap()).l2, data)
  {
    hide QcowFile.Wired, QcowFile.Committed, Inv, Quiet, Contents, IsAllocated;
    q.SoundBasics();
    var found := FindAllocatedCluster(q, offset, true);
    if found.value.Some? {
      var _ := q.Seek(Start(found.value.value));
    }
    return found;
  }

  /** Two images that share nothing. */
  predicate Apart(src: QcowFile, dst: QcowFile) {
    src != dst && src.raw != dst.raw && src.refcounts != dst.refcounts
  }

  /** `to'` is `to` with the range `[offset..offset + size)` taken from `from`. */
  predicate RangeCopied(from: seq<byte>, to: seq<byte>, offset: nat, size: nat, to': seq<byte>) {
    && offset + size <= |from| && offset + size <= |to|
    && to' == Splice(to, offset, from[offset..offset + size])
  }

  /** Reads `n` bytes from the one image and writes them to the other. */
  method CopyChunk(src: QcowFile, dst: QcowFile, n: nat) returns (r: IoResult<()>)
    requires src.Valid() && dst.Valid() && Apart(src, dst) && src.g.size == dst.g.size <= U64_MAX
    requires src.currentOffset == dst.currentOffset && src.currentOffset + n <= src.g.size
    modifies src`l2Cache, src`currentOffset, src.raw, dst, dst.raw, dst.refcounts
    ensures src.Valid() && src.Disk() == old(src.Disk())
    ensures r.Err? ==> r.error == ENOSPC
    ensures r.Ok? ==>
              && dst.Valid() && src.currentOffset == dst.currentOffset == old(src.currentOffset) + n
              && RangeCopied(old(src.Disk()), old(dst.Disk()), old(src.currentOffset), n, dst.Disk())
  {
    hide QcowFile.Valid, QcowFile.Disk, Continued, Splice;
    src.ValidBasics();
    dst.ValidBasics();
    var buf := new byte[n];
    var _ := src.Read(buf);
    assert buf[..n] == buf[..];
    var put := dst.Write(buf[..]);
    return if put.Ok? then Ok(()) else Err(put.error);
  }

  lemma CopyOn(from: seq<byte>, to: seq<byte>, offset: nat, m: nat, n: nat, to1: seq<byte>, to2: seq<byte>)
    requires RangeCopied(from, to, offset, m, to1) && RangeCopied(from, to1, offset + m, n, to2)
    ensures RangeCopied(from, to, offset, m + n, to2)
  {
    var d := from[offset..offset + m + n];
    assert d[..m] == from[offset..offset + m] && d[m..m + n] == from[offset + m..offset + m + n] && d[..m + n] == d;
    SpliceMore(to, offset, d, m, n);
  }

  lemma CopyNone(from: seq<byte>, to: seq<byte>, offset: nat)
    requires offset <= |from| && offset <= |to|
    ensures RangeCopied(from, to, offset, 0, to)
  {
  }

  /** Copies `[offset..offset + size)` in chunks. */
  method ConvertCopy(src: QcowFile, dst: QcowFile, offset: nat, size: nat) returns (r: IoResult<()>)
    requires src.Valid() && dst.Valid() && Apart(src, dst)
    requires offset + size <= src.g.size == dst.g.size <= U64_MAX
    modifies src`l2Cache, src`currentOffset, src.raw, dst, dst.raw, dst.refcounts
    ensures src.Valid() && src.Disk() == old(src.Disk())
    ensures r.Err? ==> r.error == ENOSPC
    ensures r.Ok? ==> dst.Valid() && RangeCopied(old(src.Disk()), old(dst.Disk()), offset, size, dst.Disk())
  {
    hide QcowFile.Valid, QcowFile.Disk, RangeCopied;
    src.ValidBasics();
    dst.ValidBasics();
    ghost var from, to := src.Disk(), dst.Disk();
    var readCount := 0;
    var _ := src.Seek(Start(offset));
    var _ := dst.Seek(Start(offset));
    CopyNone(from, to, offset);
    while true
      invariant src.Valid() && dst.Valid() && src.Disk() == from && readCount <= size
      invariant src.currentOffset == offset + readCount == dst.currentOffset
      invariant RangeCopied(from, to, offset, readCount, dst.Disk())
      decreases size - readCount
    {
      ghost var to1 := dst.Disk();
      var thisCount := Min(CHUNK_SIZE, size - readCount);
      r := CopyChunk(src, dst, thisCount);
      if r.Err? {
        return;
      }
      CopyOn(from, to, offset, readCount, thisCount, to1, dst.Disk());
      readCount := readCount + thisCount;
      if thisCount == 0 || readCount == size {
        break;
      }
    }
    return Ok(());
  }

  /** The first `n` bytes of a disk, and zeros behind them. */
  function Copied(disk: seq<byte>, n: nat): seq<byte>
    requires n <= |disk|
  {
    disk[..n] + Zeros(|disk| - n)
  }

  /** A hole holds zeros only. */
  lemma HoleIsZero(g: Geometry, s: Image, lo: nat, hi: nat)
    requires 8 <= g.clusterSize && lo <= hi <= g.size && NoneIn(g, s.bytes, s.l2, lo, hi, true)
    ensures Copied(Contents(g, s.bytes, s.l2), lo) == Copied(Contents(g, s.bytes, s.l2), hi)
  {
    var d := Contents(g, s.bytes, s.l2);
    forall v: nat | lo <= v < hi
      ensures d[v] == 0
    {
      assert !IsAllocated(g, s.bytes, s.l2, v);
      UnmappedZero(g, s, VirtualCluster(g, v));
    }
  }

  /** Appending the next range of data to what is already copied. */
  lemma CopyMore(disk: seq<byte>, lo: nat, hi: nat, to: seq<byte>)
    requires lo <= hi <= |disk| && RangeCopied(disk, Copied(disk, lo), lo, hi - lo, to)
    ensures to == Copied(disk, hi)
  {
  }

  /** A range of data from `offset` on, or none; before it, or behind `offset` if there is none, all is zero. */
  ghost predicate RangeOk(disk: seq<byte>, offset: nat, r: Option<(nat, nat)>) {
    var (lo, hi) := if r.Some? then r.value else (|disk|, |disk|);
    offset <= lo <= hi <= |disk| && (r.Some? ==> lo < hi) && Copied(disk, offset) == Copied(disk, lo)
  }

  lemma RangeFound(disk: seq<byte>, offset: nat, lo: nat, hi: nat)
    requires offset <= lo <= hi <= |disk| && Copied(disk, offset) == Copied(disk, lo)
    ensures lo < hi ==> RangeOk(disk, offset, Some((lo, hi)))
    ensures lo == |disk| ==> RangeOk(disk, offset, None)
  {
    hide Copied;
  }

  /** The first data from `offset` on, or none; what lies before it is zero. */
  method NextData(src: QcowFile, offset: nat) returns (r: Option<nat>)
    requires src.Valid() && offset <= src.g.size <= U64_MAX
    modifies src`l2Cache, src`currentOffset, src.raw
    ensures src.Valid() && src.Disk() == old(src.Disk()) && |src.Disk()| == src.g.size
    ensures var lo := if r.Some? then r.value else src.g.size;
            offset <= lo <= src.g.size && Copied(src.Disk(), offset) == Copied(src.Disk(), lo)
    ensures r.Some? ==>
              8 <= src.g.clusterSize && r.value < src.g.size &&
              IsAllocated(src.g, src.raw.bytes, src.Snap().l2, r.value)
  {
    hide QcowFile.Valid, Contents, Quiet, NoneIn, IsAllocated, Copied;
    src.ValidBasics();
    ghost var s0 := src.Snap();
    var data := SeekData(src, offset);
    QuietFacts(src.g, s0, src.Snap(), 0, 0);
    if data.value.None? {
      HoleIsZero(src.g, s0, offset, src.g.size);
      return None;
    }
    HoleIsZero(src.g, s0, offset, data.value.value);
    QuietAllocated(src.g, s0, src.Snap(), data.value.value);
    return data.value;
  }

  /** The end of the data that begins at `at`. */
  method NextHole(src: QcowFile, at: nat) returns (hole: nat)
    requires src.Valid() && at < src.g.size <= U64_MAX && 8 <= src.g.clusterSize
    requires IsAllocated(src.g, src.raw.bytes, src.Snap().l2, at)
    modifies src`l2Cache, src`currentOffset, src.raw
    ensures src.Valid() && src.Disk() == old(src.Disk()) && at < hole <= src.g.size
  {
    hide QcowFile.Valid, Contents, Quiet, NoneIn, IsAllocated;
    src.ValidBasics();
    ghost var s0 := src.Snap();
    var found := SeekHole(src, at);
    QuietFacts(src.g, s0, src.Snap(), 0, 0);
    return found.value.value;
  }

  /** The next range of data, from its first byte to the hole behind it. */
  method NextRange(src: QcowFile, offset: nat) returns (r: Option<(nat, nat)>)
    requires src.Valid() && offset <= src.g.size <= U64_MAX
    modifies src`l2Cache, src`currentOffset, src.raw
    ensures src.Valid() && src.Disk() == old(src.Disk()) && |src.Disk()| == src.g.size
    ensures RangeOk(src.Disk(), offset, r)
  {
    hide QcowFile.Valid, QcowFile.Disk, IsAllocated, Copied, RangeOk;
    var data := NextData(src, offset);
    if data.None? {
      RangeFound(src.Disk(), offset, src.g.size, src.g.size);
      return None;
    }
    var hole := NextHole(src, data.value);
    RangeFound(src.Disk(), offset, data.value, hole);
    return Some((data.value, hole));
  }

  /**
   * Copies an image into an empty one of the same size, skipping holes. The copy holds the same bytes
   * everywhere; the only way to fail is that the destination runs out of clusters.
   */
  method ConvertReaderWriter(src: QcowFile, dst: QcowFile) returns (r: IoResult<()>)
    requires src.Valid() && dst.Valid() && Apart(src, dst) && src.g.size == dst.g.size <= U64_MAX
    requires dst.Disk() == Zeros(dst.g.size)
    modifies src`l2Cache, src`currentOffset, src.raw, dst, dst.raw, dst.refcounts
    ensures src.Valid() && src.Disk() == old(src.Disk())
    ensures r.Err? ==> r.error == ENOSPC
    ensures r.Ok? ==> dst.Valid() && dst.Disk() == src.Disk()
  {
    hide QcowFile.Valid, QcowFile.Disk, Copied, RangeCopied, Zeros;
    src.ValidBasics();
    dst.ValidBasics();
    ghost var disk := src.Disk();
    var size, offset := src.g.size, 0;
    CopiedNone(disk);
    while offset < size
      invariant src.Valid() && dst.Valid() && src.Disk() == disk && offset <= size
      invariant dst.Disk() == Copied(disk, offset)
    {
      var range := NextRange(src, offset);
      if range.None? {
        // The rest of the disk is a hole.
        offset := size;
        break;
      }
      var (nextData, nextHole) := range.value;
      var copied := ConvertCopy(src, dst, nextData, nextHole - nextData);
      if copied.Err? {
        return Err(copied.error);
      }
      CopyMore(disk, nextData, nextHole, dst.Disk());
      offset := nextHole;
    }
    CopiedAll(disk);
    return Ok(());
  }

  lemma CopiedNone(disk: seq<byte>)
    ensures Copied(disk, 0) == Zeros(|disk|)
  {
  }

  lemma CopiedAll(disk: seq<byte>)
    ensures Copied(disk, |disk|) == disk
  {
  }
}
